/** The two documented runs of the interpreter, worked out on the model: a
    `poi` row followed by an instruction for a hearing NPC, and a `hold`
    line followed by an instruction. */
module SceneExamples {
  import opened Wrappers
  import opened Text
  import opened Scene

  const Npc1 := Npc(ActorRef("npc_1", "npc", "Test NPC", false))

  lemma HoldLine(parse: FloatParser)
    ensures Classify("hold\n", parse) == HoldRow
  {
    StripUnpadded("hold");
    assert "hold" + "\n" == "hold\n";
    LowerUnchanged("hold");
    HoldKind("hold\n", parse);
  }

  /** A `hold` line's kind, from its stripped text. */
  lemma HoldKind(raw: string, parse: FloatParser)
    requires Lower(Strip(raw)) == "hold"
    ensures Classify(raw, parse) == HoldRow
  {
    var lower := Lower(Strip(raw));
    assert lower[0] == 'h';
  }

  /** `str.strip()` also removes the information separators U+001C to
      U+001F, so a `hold` line led by one is still a `hold` row. */
  lemma SeparatorLedHold(parse: FloatParser)
    ensures Classify("\U{001F}hold\n", parse) == HoldRow
  {
    var raw := "\U{001F}hold\n";
    assert raw[1..] == "hold" + "\n";
    StripUnpadded("hold");
    assert Strip(raw) == "hold";
    LowerUnchanged("hold");
    HoldKind(raw, parse);
  }

  lemma CommentedHold()
    ensures CommentedOut("hold\n") == "# hold\n"
  {
  }

  /** A file that starts with `hold` stops the pass at its first line, which
      is commented out; the instruction after it is left for later. */
  lemma HoldPausesProcessing(lines: seq<string>, parse: FloatParser)
    requires lines == ["hold\n", "npc_1 Next line\n"]
    ensures Pass(lines, [Npc1], parse) == Scan(["# hold\n", lines[1]], [], HoldFound, 0)
  {
    var kinds := Kinds(lines, parse);
    HoldLine(parse);
    KindsAt(lines, parse, 0);
    assert kinds[0] == HoldRow;
    ScanUnfold(lines, kinds, 0, [Npc1]);
    CommentedHold();
    assert lines[0 := "# hold\n"] == ["# hold\n", lines[1]];
  }

  /** "Hello there" holds no abbreviation and no quotes: it is its own
      reason. */
  lemma PlainReason()
    ensures ExpandReason("Hello there") == "Hello there"
  {
    var rest := "Hello there";
    forall i ensures !OccursAt(Abbreviation, rest, i) {
      if 0 <= i <= |rest| - |Abbreviation| {
        assert rest[i..][0] != Abbreviation[0];
      }
    }
    ContainsOccurs(rest, Abbreviation);
    ReplaceAllAbsent(rest, Abbreviation, Expansion);
  }

  lemma InstructionWords()
    ensures SplitOnce("npc_1 Hello there", ' ') == ["npc_1", "Hello there"]
  {
    var stripped := "npc_1 Hello there";
    assert stripped[..5] == "npc_1";
    assert stripped[6..] == "Hello there";
    SplitOnceAt(stripped, ' ', 5);
  }

  /** An instruction line's kind, from its stripped text. */
  lemma InstructionKind(raw: string, parse: FloatParser)
    requires var lower := Lower(Strip(raw));
      !("#" <= lower) && lower != [] && !("poi " <= lower) && lower != "hold"
    ensures var components := SplitOnce(Strip(raw), ' ');
      Classify(raw, parse)
        == InstructionRow(components[0], ExpandReason(if |components| >= 2 then components[1] else ""))
  {
  }

  lemma InstructionLine(parse: FloatParser)
    ensures Classify("npc_1 Hello there\n", parse) == InstructionRow("npc_1", "Hello there")
  {
    var stripped := "npc_1 Hello there";
    StripUnpadded(stripped);
    assert stripped + "\n" == "npc_1 Hello there\n";
    LowerEachChar(stripped);
    var lower := Lower(stripped);
    assert lower[0] == 'n';
    InstructionKind("npc_1 Hello there\n", parse);
    InstructionWords();
    PlainReason();
  }

  /** A `poi` row's kind, from its stripped text. */
  lemma PoiKind(raw: string, parse: FloatParser)
    requires var lower := Lower(Strip(raw));
      !("#" <= lower) && lower != [] && "poi " <= lower
    ensures var parts := PoiComponents(Strip(raw));
      Classify(raw, parse) == PoiRow(if |parts| < 5 then None else ParsePoi(parts, parse))
  {
  }

  const DoorParts := ["travel", "Go to door", "1", "2", "3", "door_ref"]

  /** The text of the documented `poi` row after its `poi ` prefix: the six
      parts joined by commas. */
  const DoorText := Join(DoorParts, ',')

  const DoorRow := "poi " + DoorText + "\n"

  const Door := PointOfInterest(Travel, "Go to door", [1.0, 2.0, 3.0], "door_ref")

  lemma DoorPartsPlain()
    ensures forall k :: 0 <= k < |DoorParts| ==> ',' !in DoorParts[k] && Strip(DoorParts[k]) == DoorParts[k]
  {
    forall k | 0 <= k < |DoorParts| ensures ',' !in DoorParts[k] && Strip(DoorParts[k]) == DoorParts[k] {
      StripUnpadded(DoorParts[k]);
    }
  }

  lemma DropPrefix(a: string, b: string)
    ensures (a + b)[|a|..] == b
  {
  }

  lemma DoorComponents()
    ensures PoiComponents("poi " + DoorText) == DoorParts
  {
    DropPrefix("poi ", DoorText);
    DoorPartsPlain();
    SplitJoin(DoorParts, ',');
  }

  lemma DoorParsed(parse: FloatParser)
    requires parse("1") == Some(1.0) && parse("2") == Some(2.0) && parse("3") == Some(3.0)
    ensures ParsePoi(DoorParts, parse) == Some(Door)
  {
    LowerUnchanged("travel");
  }

  /** A stripped line that starts with `poi ` is a `poi` row whatever the
      rest of it is. */
  lemma PoiPrefixed(stripped: string)
    requires "poi " <= stripped
    ensures var lower := Lower(stripped);
      !("#" <= lower) && lower != [] && "poi " <= lower
  {
    LowerEachChar(stripped);
    var lower := Lower(stripped);
    forall i | 0 <= i < 4 ensures lower[i] == "poi "[i] {
      assert lower[i] == LowerChar(stripped[i]);
      assert stripped[i] == "poi "[i];
    }
  }

  /** The `poi` row carries no padding: it starts with `p` and ends with the
      last letter of `door_ref`. */
  lemma DoorRowUnpadded()
    ensures Strip(DoorRow) == "poi " + DoorText
  {
    var stripped := "poi " + DoorText;
    JoinEndsWithLast(DoorParts, ',');
    assert stripped[|stripped| - 1] == DoorText[|DoorText| - 1] == 'f';
    StripUnpadded(stripped);
  }

  lemma PoiLine(parse: FloatParser)
    requires parse("1") == Some(1.0) && parse("2") == Some(2.0) && parse("3") == Some(3.0)
    ensures Classify(DoorRow, parse) == PoiRow(Some(Door))
  {
    DoorRowUnpadded();
    PoiPrefixed("poi " + DoorText);
    PoiKind(DoorRow, parse);
    DoorComponents();
    DoorParsed(parse);
  }

  /** The hearing NPC `npc_1` is named by the key `npc_1`. */
  lemma Npc1Named()
    ensures FirstNamed("npc_1", [Npc1]) == Some(0)
  {
    LowerUnchanged("npc_1");
    assert Names("npc_1", Npc1);
  }

  lemma CommentedInstruction()
    ensures CommentedOut("npc_1 Hello there\n") == "# npc_1 Hello there\n"
  {
  }

  /** An instruction for a hearing NPC stops the pass and is commented
      out. */
  lemma InstructionStops(lines: seq<string>, kinds: seq<LineKind>)
    requires |lines| == |kinds| == 2 && kinds[1] == InstructionRow("npc_1", "Hello there")
    ensures ScanFrom(lines, kinds, 1, [Npc1])
      == Scan([lines[0], CommentedOut(lines[1])], [],
              Found(ManualInstruction(Npc1.actorRef, "Hello there", true)), 1)
  {
    Npc1Named();
    ScanUnfold(lines, kinds, 1, [Npc1]);
    assert lines[1 := CommentedOut(lines[1])] == [lines[0], CommentedOut(lines[1])];
  }

  /** A `poi` row followed by an instruction for a hearing NPC: the point of
      interest is collected, the pass stops at the instruction, which is
      commented out, and the NPC gets the rest of the line as its reason.
      The `poi` row itself stays as it was, so the rewritten file starts
      with it. */
  lemma PoiThenInstruction(parse: FloatParser)
    requires parse("1") == Some(1.0) && parse("2") == Some(2.0) && parse("3") == Some(3.0)
    ensures var lines := [DoorRow, "npc_1 Hello there\n"];
      Pass(lines, [Npc1], parse)
        == Scan([lines[0], "# npc_1 Hello there\n"], [Door],
                Found(ManualInstruction(Npc1.actorRef, "Hello there", true)), 1)
  {
    var lines := [DoorRow, "npc_1 Hello there\n"];
    var kinds := Kinds(lines, parse);
    PoiLine(parse);
    KindsAt(lines, parse, 0);
    assert kinds[0] == PoiRow(Some(Door));
    ScanUnfold(lines, kinds, 0, [Npc1]);
    InstructionLine(parse);
    KindsAt(lines, parse, 1);
    InstructionStops(lines, kinds);
    CommentedInstruction();
  }

  /** The first documented run on a `SceneInstructions` object. */
  method PoiThenInstructionRun(parse: FloatParser)
    requires parse("1") == Some(1.0) && parse("2") == Some(2.0) && parse("3") == Some(3.0)
  {
    var lines := [DoorRow, "npc_1 Hello there\n"];
    var scene := new SceneInstructions(Some(Config("instructions.txt", "utf-8", false)), Some(lines));
    var r := scene.GetNextManualInstructionForPickNpc([Npc1], parse);
    PoiThenInstruction(parse);
    assert r == Some(ManualInstruction(Npc1.actorRef, "Hello there", true));
    assert scene.pois == [Door];
    assert scene.file == Some([lines[0], "# npc_1 Hello there\n"]);
    assert !scene.holdOn;
  }

  /** The second documented run: the hold latches, a second call does
      nothing, and the release key lets the next call go on. */
  method HoldRun(parse: FloatParser)
  {
    var lines := ["hold\n", "npc_1 Next line\n"];
    var scene := new SceneInstructions(Some(Config("instructions.txt", "utf-8", false)), Some(lines));
    var r := scene.GetNextManualInstructionForPickNpc([Npc1], parse);
    HoldPausesProcessing(lines, parse);
    assert r == None && scene.holdOn;
    assert scene.file == Some(["# hold\n", "npc_1 Next line\n"]);
    r := scene.GetNextManualInstructionForPickNpc([Npc1], parse);
    assert r == None && scene.holdOn;
    assert scene.file == Some(["# hold\n", "npc_1 Next line\n"]);
    scene.HandlePress(Some(42));
    assert scene.holdOn;
    scene.HandlePress(Some(ReleaseKey));
    assert !scene.holdOn;
  }
}
