/** The scene-instruction file interpreter: a text file that a person edits
    while the game runs. Each call skips comment and blank lines, collects the
    `poi` rows into points of interest, and consumes instruction lines by
    commenting them out, until a `hold` line (which pauses the interpreter
    until a key press releases it) or an instruction addressed to an NPC that
    can hear it. The file is a sequence of lines on the object; reading it
    and writing it back read and assign that sequence. */
module Scene {
  import opened Wrappers
  import opened Text

  datatype Config = Config(file: string, encoding: string, startPaused: bool)

  datatype ActorRef = ActorRef(refId: string, kind: string, name: string, female: bool)

  datatype Npc = Npc(actorRef: ActorRef)

  datatype PoiType = Activate | Travel

  datatype PointOfInterest = PointOfInterest(poiType: PoiType, poiLabel: string, pos: seq<real>, refId: string)

  datatype ManualInstruction = ManualInstruction(actorToAct: ActorRef, reason: string, passReasonToNpc: bool)

  /** Python's `float()` on one stripped coordinate; `None` stands for the
      `ValueError` it raises on text that is not a number. */
  type FloatParser = string -> Option<real>

  /** The virtual key code that releases a hold (the numeric keypad's
      decimal key). */
  const ReleaseKey := 110

  /** The abbreviation an instruction's reason may use, and its expansion. */
  const Abbreviation := "всс"
  const Expansion := "в своем стиле"

  /** A reason in double quotes becomes a line the NPC is to say. */
  const SayPrefix := "в своем стиле скажи: '"

  /** A consumed line, as it is written back. */
  function CommentedOut(raw: string): string {
    "# " + raw
  }

  /** The parts of a `poi` row after its first four characters (none when
      the row is shorter), split at commas, each stripped. */
  function PoiComponents(stripped: string): seq<string> {
    var raw := Split(if |stripped| >= 4 then stripped[4..] else [], ',');
    seq(|raw|, k requires 0 <= k < |raw| => Strip(raw[k]))
  }

  /** The point of interest a `poi` row with at least five parts describes,
      or `None` when one of its three coordinates is not a number. */
  function ParsePoi(parts: seq<string>, parse: FloatParser): (r: Option<PointOfInterest>)
    requires |parts| >= 5
    ensures r.Some? <==> parse(parts[2]).Some? && parse(parts[3]).Some? && parse(parts[4]).Some?
    ensures r.Some? ==>
      && (r.value.poiType == Activate <==> Lower(parts[0]) == "activate")
      && r.value.poiLabel == parts[1]
      && r.value.pos == [parse(parts[2]).value, parse(parts[3]).value, parse(parts[4]).value]
      && r.value.refId == (if |parts| >= 6 then parts[5] else "")
  {
    match (parse(parts[2]), parse(parts[3]), parse(parts[4]))
    case (Some(x), Some(y), Some(z)) =>
      Some(PointOfInterest(if Lower(parts[0]) == "activate" then Activate else Travel,
                           parts[1], [x, y, z], if |parts| >= 6 then parts[5] else ""))
    case _ => None
  }

  /** The reason an NPC is given: the abbreviation expanded, then a reason in
      double quotes turned into a line to say. */
  function ExpandReason(rest: string): string {
    var r := ReplaceAll(rest, Abbreviation, Expansion);
    if |r| >= 1 && r[0] == '"' && r[|r| - 1] == '"'
    then SayPrefix + (if |r| >= 2 then r[1..|r| - 1] else "") + "'"
    else r
  }

  /** What one line of the file is, once stripped and lowered. */
  datatype LineKind =
    | Skipped
    | PoiRow(poi: Option<PointOfInterest>)
    | HoldRow
    | InstructionRow(key: string, reason: string)

  /** A line that the interpreter comments out when it reaches it. */
  predicate Consumed(kind: LineKind) {
    kind.HoldRow? || kind.InstructionRow?
  }

  function Classify(raw: string, parse: FloatParser): LineKind {
    var stripped := Strip(raw);
    var lower := Lower(stripped);
    if "#" <= lower || lower == [] then Skipped
    else if "poi " <= lower then
      var parts := PoiComponents(stripped);
      PoiRow(if |parts| < 5 then None else ParsePoi(parts, parse))
    else if lower == "hold" then HoldRow
    else
      var components := SplitOnce(stripped, ' ');
      InstructionRow(components[0], ExpandReason(if |components| >= 2 then components[1] else ""))
  }

  /** A line is skipped exactly when, stripped, it is empty or starts with
      `#`. */
  lemma ClassifySkips(raw: string, parse: FloatParser)
    ensures Classify(raw, parse) == Skipped <==> Strip(raw) == [] || Strip(raw)[0] == '#'
  {
    var stripped := Strip(raw);
    LowerEachChar(stripped);
    if stripped != [] {
      assert Lower(stripped)[0] == LowerChar(stripped[0]);
      assert "#" <= Lower(stripped) <==> Lower(stripped)[0] == '#';
    }
  }

  /** The key of an instruction line is its first word, up to the first
      space, and its reason comes from the rest of the line after that space,
      or from nothing when the line has no space. */
  lemma InstructionKeyIsFirstWord(raw: string, parse: FloatParser)
    requires Classify(raw, parse).InstructionRow?
    ensures var stripped, kind := Strip(raw), Classify(raw, parse);
      && ' ' !in kind.key
      && (' ' !in stripped ==> kind.key == stripped && kind.reason == ExpandReason(""))
      && (' ' in stripped ==>
            && |kind.key| < |stripped|
            && stripped == kind.key + " " + stripped[|kind.key| + 1..]
            && kind.reason == ExpandReason(stripped[|kind.key| + 1..]))
  {
    var stripped := Strip(raw);
    var r := SplitOnce(stripped, ' ');
    SplitOnceAtFirst(stripped, ' ');
    if |r| == 2 {
      assert stripped[|r[0]| + 1..] == r[1];
    }
  }

  /** The reason is empty, so that the NPC is not handed one, exactly when
      the instruction line had nothing after its key. */
  lemma ExpandReasonEmpty(rest: string)
    ensures ExpandReason(rest) == [] <==> rest == []
  {
    if rest != [] {
      if Abbreviation <= rest {
        assert |ReplaceAll(rest, Abbreviation, Expansion)| >= |Expansion|;
      } else {
        assert ReplaceAll(rest, Abbreviation, Expansion)[0] == rest[0];
      }
    }
  }

  /** The NPC key of an instruction names `npc` when, lowered, it occurs in
      the NPC's lowered ref id or lowered name. */
  predicate Names(key: string, npc: Npc) {
    Contains(Lower(npc.actorRef.refId), Lower(key)) || Contains(Lower(npc.actorRef.name), Lower(key))
  }

  /** The position of the first NPC at or after `j` the key names, if any. */
  function FirstNamedFrom(key: string, hearing: seq<Npc>, j: nat): (r: Option<nat>)
    requires j <= |hearing|
    ensures r.Some? ==> j <= r.value < |hearing|
    decreases |hearing| - j
  {
    if j == |hearing| then None
    else if Names(key, hearing[j]) then Some(j)
    else FirstNamedFrom(key, hearing, j + 1)
  }

  /** `FirstNamedFrom` finds nothing exactly when no NPC from `j` on is
      named, and otherwise the first named one. */
  lemma {:induction false} FirstNamedFromFinds(key: string, hearing: seq<Npc>, j: nat)
    requires j <= |hearing|
    ensures var r := FirstNamedFrom(key, hearing, j);
      && (r.None? <==> forall k :: j <= k < |hearing| ==> !Names(key, hearing[k]))
      && (r.Some? ==> Names(key, hearing[r.value]))
      && (r.Some? ==> forall k :: j <= k < r.value ==> !Names(key, hearing[k]))
    decreases |hearing| - j
  {
    if j < |hearing| && !Names(key, hearing[j]) {
      FirstNamedFromFinds(key, hearing, j + 1);
    }
  }

  /** The position of the first NPC the key names, if any. */
  function FirstNamed(key: string, hearing: seq<Npc>): Option<nat> {
    FirstNamedFrom(key, hearing, 0)
  }

  /** The outcome of one pass over the file. */
  datatype Outcome = Found(instruction: ManualInstruction) | HoldFound | Exhausted

  /** The file's lines after a pass, the points of interest it collected, its
      outcome and the index of the line it stopped at (the number of lines
      when it reached the end). */
  datatype Scan = Scan(lines: seq<string>, pois: seq<PointOfInterest>, outcome: Outcome, stop: nat)

  /** What the pass does at line `i` of kind `kind`: move on to the next
      line, with the points of interest the line adds, or halt with an
      outcome; a consumed line is commented out either way. */
  datatype Step = Next(lines: seq<string>, found: seq<PointOfInterest>) | Halt(lines: seq<string>, outcome: Outcome)

  function StepAt(lines: seq<string>, i: nat, kind: LineKind, hearing: seq<Npc>): Step
    requires i < |lines|
  {
    match kind
    case Skipped => Next(lines, [])
    case PoiRow(poi) => Next(lines, if poi.Some? then [poi.value] else [])
    case HoldRow => Halt(lines[i := CommentedOut(lines[i])], HoldFound)
    case InstructionRow(key, reason) =>
      var lines' := lines[i := CommentedOut(lines[i])];
      match FirstNamed(key, hearing)
      case Some(k) => Halt(lines', Found(ManualInstruction(hearing[k].actorRef, reason, |reason| > 0)))
      case None => Next(lines', [])
  }

  /** The kind of each line of a file, in order. */
  function Kinds(lines: seq<string>, parse: FloatParser): (kinds: seq<LineKind>)
    ensures |kinds| == |lines|
    decreases |lines|
  {
    if lines == [] then [] else [Classify(lines[0], parse)] + Kinds(lines[1..], parse)
  }

  lemma {:induction false} KindsAt(lines: seq<string>, parse: FloatParser, k: nat)
    requires k < |lines|
    ensures Kinds(lines, parse)[k] == Classify(lines[k], parse)
    decreases k
  {
    if k > 0 {
      KindsAt(lines[1..], parse, k - 1);
    }
  }

  /** The pass over the lines from index `i` on, where `kinds` gives the
      kind each line had when the file was read. The pass only ever
      rewrites a line it has already looked at, so each line it looks at
      still has that kind. */
  function ScanFrom(lines: seq<string>, kinds: seq<LineKind>, i: nat, hearing: seq<Npc>): Scan
    requires i <= |lines| == |kinds|
    decreases |lines| - i
  {
    if i == |lines| then Scan(lines, [], Exhausted, i)
    else match StepAt(lines, i, kinds[i], hearing)
      case Halt(lines', outcome) => Scan(lines', [], outcome, i)
      case Next(lines', found) =>
        var s := ScanFrom(lines', kinds, i + 1, hearing);
        s.(pois := found + s.pois)
  }

  /** One call's pass over the whole file. */
  function Pass(lines: seq<string>, hearing: seq<Npc>, parse: FloatParser): Scan {
    ScanFrom(lines, Kinds(lines, parse), 0, hearing)
  }

  /** One step of the pass, unfolded. */
  lemma ScanUnfold(lines: seq<string>, kinds: seq<LineKind>, i: nat, hearing: seq<Npc>)
    requires i < |lines| == |kinds|
    ensures var step := StepAt(lines, i, kinds[i], hearing);
      && |step.lines| == |lines|
      && (forall k :: 0 <= k < |lines| && k != i ==> step.lines[k] == lines[k])
      && (step.Halt? ==> ScanFrom(lines, kinds, i, hearing) == Scan(step.lines, [], step.outcome, i))
      && (step.Next? ==>
            var s := ScanFrom(step.lines, kinds, i + 1, hearing);
            ScanFrom(lines, kinds, i, hearing) == s.(pois := step.found + s.pois))
  {
  }

  /** The rest `s` of a pass, after the points of interest `acc` collected
      before it. */
  function Resume(s: Scan, acc: seq<PointOfInterest>): Scan {
    s.(pois := acc + s.pois)
  }

  /** A pass resumed at line `i` either halts there with what it collected
      so far, or resumes at line `i + 1` with the line's points of interest
      added. */
  lemma ScanAdvances(whole: Scan, lines: seq<string>, kinds: seq<LineKind>, i: nat, hearing: seq<Npc>,
                     acc: seq<PointOfInterest>)
    requires i < |lines| == |kinds|
    requires whole == Resume(ScanFrom(lines, kinds, i, hearing), acc)
    ensures var step := StepAt(lines, i, kinds[i], hearing);
      && |step.lines| == |lines|
      && (forall k :: 0 <= k < |lines| && k != i ==> step.lines[k] == lines[k])
      && (step.Halt? ==> whole == Scan(step.lines, acc, step.outcome, i))
      && (step.Next? ==> whole == Resume(ScanFrom(step.lines, kinds, i + 1, hearing), acc + step.found))
  {
    ScanUnfold(lines, kinds, i, hearing);
    var step := StepAt(lines, i, kinds[i], hearing);
    if step.Next? {
      var rest := ScanFrom(step.lines, kinds, i + 1, hearing);
      assert acc + (step.found + rest.pois) == (acc + step.found) + rest.pois;
    }
  }

  /** A line the pass stops at: a hold, or an instruction some hearing NPC is
      named by. */
  predicate Stops(kind: LineKind, hearing: seq<Npc>) {
    kind.HoldRow? || (kind.InstructionRow? && FirstNamed(kind.key, hearing).Some?)
  }

  /** The points of interest of the well-formed `poi` rows among lines of
      kinds `kinds`, in file order. */
  function PoisIn(kinds: seq<LineKind>): seq<PointOfInterest>
    decreases |kinds|
  {
    if kinds == [] then []
    else
      (if kinds[0].PoiRow? && kinds[0].poi.Some? then [kinds[0].poi.value] else []) + PoisIn(kinds[1..])
  }

  /** The pass stops at the first hold or named instruction at or after `i`,
      or at the end of the file, and its outcome is read off that line. */
  lemma {:induction false} ScanStopsAtFirst(lines: seq<string>, kinds: seq<LineKind>, i: nat, hearing: seq<Npc>)
    requires i <= |lines| == |kinds|
    ensures var s := ScanFrom(lines, kinds, i, hearing);
      && i <= s.stop <= |lines|
      && (forall k :: i <= k < s.stop ==> !Stops(kinds[k], hearing))
      && (s.outcome.Exhausted? <==> s.stop == |lines|)
      && (s.stop < |lines| ==> Stops(kinds[s.stop], hearing))
      && (s.outcome.HoldFound? <==> s.stop < |lines| && kinds[s.stop].HoldRow?)
      && (s.outcome.Found? ==>
            && s.stop < |lines|
            && var kind := kinds[s.stop];
            && kind.InstructionRow?
            && var k := FirstNamed(kind.key, hearing).value;
            && s.outcome.instruction == ManualInstruction(hearing[k].actorRef, kind.reason, |kind.reason| > 0))
    decreases |lines| - i
  {
    if i < |lines| {
      var kind := kinds[i];
      if !Consumed(kind) {
        ScanStopsAtFirst(lines, kinds, i + 1, hearing);
      } else if kind.InstructionRow? && FirstNamed(kind.key, hearing).None? {
        ScanStopsAtFirst(lines[i := CommentedOut(lines[i])], kinds, i + 1, hearing);
      }
    }
  }

  /** A pass comments out exactly the held or instruction lines from `i` up
      to and including the line it stops at; every other line keeps its
      content. */
  lemma {:induction false} ScanRewritesConsumedLines(lines: seq<string>, kinds: seq<LineKind>, i: nat, hearing: seq<Npc>)
    requires i <= |lines| == |kinds|
    ensures var s := ScanFrom(lines, kinds, i, hearing);
      && |s.lines| == |lines|
      && i <= s.stop <= |lines|
      && forall k :: 0 <= k < |lines| ==>
           s.lines[k] == if i <= k <= s.stop && Consumed(kinds[k]) then CommentedOut(lines[k]) else lines[k]
    decreases |lines| - i
  {
    var s := ScanFrom(lines, kinds, i, hearing);
    if i < |lines| {
      ScanUnfold(lines, kinds, i, hearing);
      var step := StepAt(lines, i, kinds[i], hearing);
      if step.Next? {
        var rest := ScanFrom(step.lines, kinds, i + 1, hearing);
        ScanRewritesConsumedLines(step.lines, kinds, i + 1, hearing);
        assert s.lines == rest.lines && s.stop == rest.stop;
        RewritesPastLine(lines, kinds, i, step.lines, rest.lines, rest.stop);
      }
    }
  }

  /** Line `i` is left as it was, or commented out when it is consumed, and
      the lines after it are rewritten up to `stop`: then the lines from `i`
      are rewritten up to `stop`. */
  lemma RewritesPastLine(lines: seq<string>, kinds: seq<LineKind>, i: nat, next: seq<string>, final: seq<string>, stop: nat)
    requires i < |lines| == |kinds| == |next| == |final| && i < stop
    requires next[i] == (if Consumed(kinds[i]) then CommentedOut(lines[i]) else lines[i])
    requires forall k :: 0 <= k < |lines| && k != i ==> next[k] == lines[k]
    requires forall k :: 0 <= k < |lines| ==>
      final[k] == if i + 1 <= k <= stop && Consumed(kinds[k]) then CommentedOut(next[k]) else next[k]
    ensures forall k :: 0 <= k < |lines| ==>
      final[k] == if i <= k <= stop && Consumed(kinds[k]) then CommentedOut(lines[k]) else lines[k]
  {
    forall k | 0 <= k < |lines|
      ensures final[k] == if i <= k <= stop && Consumed(kinds[k]) then CommentedOut(lines[k]) else lines[k]
    {
      if k != i {
        assert next[k] == lines[k];
      }
    }
  }

  /** A pass collects the points of interest of the well-formed `poi` rows
      between `i` and the line it stops at, in file order. */
  lemma {:induction false} ScanCollectsPois(lines: seq<string>, kinds: seq<LineKind>, i: nat, hearing: seq<Npc>)
    requires i <= |lines| == |kinds|
    ensures var s := ScanFrom(lines, kinds, i, hearing);
      i <= s.stop <= |lines| && s.pois == PoisIn(kinds[i..s.stop])
    decreases |lines| - i
  {
    var s := ScanFrom(lines, kinds, i, hearing);
    ScanStopsAtFirst(lines, kinds, i, hearing);
    if i < |lines| {
      var kind := kinds[i];
      if !Consumed(kind) {
        ScanCollectsPois(lines, kinds, i + 1, hearing);
        assert kinds[i..s.stop][1..] == kinds[i + 1..s.stop];
      } else if kind.InstructionRow? && FirstNamed(kind.key, hearing).None? {
        ScanCollectsPois(lines[i := CommentedOut(lines[i])], kinds, i + 1, hearing);
        assert kinds[i..s.stop][1..] == kinds[i + 1..s.stop];
      } else {
        assert kinds[i..s.stop] == [];
      }
    } else {
      assert kinds[i..s.stop] == [];
    }
  }

  class SceneInstructions {
    const config: Option<Config>
    /** `_manually_instructed_to_hold_on_instructions`. */
    var holdOn: bool
    /** The points of interest found by the last call. */
    var pois: seq<PointOfInterest>
    /** The lines of `config.file`, each with its line break; `None` when no
        such file exists. */
    var file: Option<seq<string>>

    constructor (config: Option<Config>, file: Option<seq<string>>)
      ensures this.config == config && this.file == file && pois == []
      ensures holdOn == (config.Some? && config.value.startPaused)
    {
      this.config := config;
      this.file := file;
      holdOn := false;
      pois := [];
      if config.Some? {
        holdOn := config.value.startPaused;
      }
    }

    /** `_handle_press`: only the release key clears the hold flag. */
    method HandlePress(vk: Option<int>)
      modifies this`holdOn
      ensures holdOn == (old(holdOn) && vk != Some(ReleaseKey))
    {
      if vk.Some? && vk.value == ReleaseKey {
        if holdOn {
          holdOn := false;
        }
      }
    }

    /** `_read_lines`. */
    method ReadLines() returns (lines: Option<seq<string>>)
      ensures lines == if config.None? then None else file
    {
      if config.None? {
        return None;
      }
      if file.None? {
        return None;
      }
      return file;
    }

    /** `_write_lines`. */
    method WriteLines(lines: seq<string>)
      modifies this`file
      ensures file == if config.None? then old(file) else Some(lines)
    {
      if config.None? {
        return;
      }
      file := Some(lines);
    }

    /** The loop over the hearing NPCs of one instruction. */
    static method PickHearingNpc(key: string, hearing: seq<Npc>) returns (found: Option<nat>)
      ensures found == FirstNamed(key, hearing)
    {
      var lowerKey := Lower(key);
      for j := 0 to |hearing|
        invariant FirstNamed(key, hearing) == FirstNamedFrom(key, hearing, j)
      {
        var npc := hearing[j];
        if Contains(Lower(npc.actorRef.refId), lowerKey) || Contains(Lower(npc.actorRef.name), lowerKey) {
          assert Names(key, hearing[j]);
          return Some(j);
        }
        assert !Names(key, hearing[j]);
      }
      return None;
    }

    /** The fields of a `poi` row, or `None` when it has fewer than five
        parts or a coordinate is not a number. */
    static method ParsePoiRow(lineStripped: string, parse: FloatParser) returns (poi: Option<PointOfInterest>)
      ensures var parts := PoiComponents(lineStripped);
        poi == if |parts| < 5 then None else ParsePoi(parts, parse)
    {
      var components := PoiComponents(lineStripped);
      if |components| < 5 {
        return None;
      }
      poi := ParsePoi(components, parse);
    }

    /** The NPC key and the expanded reason of an instruction line. */
    static method ParseInstruction(lineStripped: string) returns (npcRefId: string, reason: string)
      ensures var components := SplitOnce(lineStripped, ' ');
        npcRefId == components[0]
        && reason == ExpandReason(if |components| >= 2 then components[1] else "")
    {
      var components := SplitOnce(lineStripped, ' ');
      if |components| == 0 {
        // `split` never returns an empty list
        assert false;
        return [], [];
      }
      npcRefId := components[0];
      reason := if |components| >= 2 then components[1] else "";
      reason := ReplaceAll(reason, Abbreviation, Expansion);
      if |reason| >= 1 && reason[0] == '"' && reason[|reason| - 1] == '"' {
        reason := SayPrefix + (if |reason| >= 2 then reason[1..|reason| - 1] else "") + "'";
      }
    }

    /** The body of the loop of `get_next_manual_instruction_for_pick_npc`
        for the line at `lineIndex`: it does what `StepAt` says for the
        line's kind, in place, and writes the file back when it comments
        the line out. */
    method HandleLine(allLines: array<string>, lineIndex: nat, hearing: seq<Npc>, parse: FloatParser,
                      ghost original: seq<string>)
      returns (stop: bool, r: Option<ManualInstruction>)
      requires lineIndex < allLines.Length && lineIndex < |original| && allLines[lineIndex] == original[lineIndex]
      requires config.Some? && file == Some(allLines[..]) && !holdOn
      modifies allLines, this`pois, this`file, this`holdOn
      ensures file == Some(allLines[..])
      ensures var step := StepAt(old(allLines[..]), lineIndex, Kinds(original, parse)[lineIndex], hearing);
        && stop == step.Halt?
        && allLines[..] == step.lines
        && pois == old(pois) + (if step.Next? then step.found else [])
        && r == (if step.Halt? && step.outcome.Found? then Some(step.outcome.instruction) else None)
        && holdOn == (step.Halt? && step.outcome.HoldFound?)
    {
      var lineRaw := allLines[lineIndex];
      ghost var kind := Classify(lineRaw, parse);
      KindsAt(original, parse, lineIndex);
      var lineStripped := Strip(lineRaw);
      var lineLower := Lower(lineStripped);
      if "#" <= lineLower || |lineLower| == 0 {
        assert kind == Skipped;
        return false, None;
      }
      if "poi " <= lineLower {
        var poi := ParsePoiRow(lineStripped, parse);
        assert kind == PoiRow(poi);
        if poi.Some? {
          pois := pois + [poi.value];
        }
        return false, None;
      }
      allLines[lineIndex] := CommentedOut(lineRaw);
      WriteLines(allLines[..]);
      if lineLower == "hold" {
        assert kind == HoldRow;
        holdOn := true;
        return true, None;
      }
      var npcRefId, reason := ParseInstruction(lineStripped);
      assert kind == InstructionRow(npcRefId, reason);
      var passReason := |reason| > 0;
      var found := PickHearingNpc(npcRefId, hearing);
      if found.Some? {
        return true, Some(ManualInstruction(hearing[found.value].actorRef, reason, passReason));
      }
      return false, None;
    }

    /** `get_next_manual_instruction_for_pick_npc`. Without a configuration,
        while held, or without a file, nothing but `pois` changes; otherwise
        the lines are rewritten in place as `ScanFrom` describes, written
        back, and the hold flag is set when the pass stopped at a hold. */
    method GetNextManualInstructionForPickNpc(hearing: seq<Npc>, parse: FloatParser) returns (r: Option<ManualInstruction>)
      modifies this`pois, this`file, this`holdOn
      ensures config.None? || old(holdOn) || old(file).None? ==>
        r == None && pois == [] && file == old(file) && holdOn == old(holdOn)
      ensures config.Some? && !old(holdOn) && old(file).Some? ==>
        var s := Pass(old(file).value, hearing, parse);
        && file == Some(s.lines)
        && pois == s.pois
        && r == (if s.outcome.Found? then Some(s.outcome.instruction) else None)
        && holdOn == s.outcome.HoldFound?
    {
      pois := [];
      if config.None? {
        return None;
      }
      if holdOn {
        return None;
      }
      var read := ReadLines();
      if read.None? {
        return None;
      }
      var lines := read.value;
      var allLines := new string[|lines|](k requires 0 <= k < |lines| => lines[k]);
      assert allLines[..] == lines;
      r := ScanLines(allLines, hearing, parse);
    }

    /** The loop over the lines of `get_next_manual_instruction_for_pick_npc`:
        it rewrites `allLines` in place and ends as one `ScanFrom` pass over
        the lines it started with. */
    method ScanLines(allLines: array<string>, hearing: seq<Npc>, parse: FloatParser) returns (r: Option<ManualInstruction>)
      requires config.Some? && file == Some(allLines[..]) && !holdOn && pois == []
      modifies allLines, this`pois, this`file, this`holdOn
      ensures var s := Pass(old(allLines[..]), hearing, parse);
        && file == Some(s.lines)
        && pois == s.pois
        && r == (if s.outcome.Found? then Some(s.outcome.instruction) else None)
        && holdOn == s.outcome.HoldFound?
    {
      ghost var original := allLines[..];
      ghost var kinds := Kinds(original, parse);
      ghost var whole := ScanFrom(original, kinds, 0, hearing);
      r := None;
      var lineIndex := 0;
      while lineIndex < allLines.Length
        invariant 0 <= lineIndex <= allLines.Length
        invariant file == Some(allLines[..]) && !holdOn && r == None
        invariant forall k :: lineIndex <= k < allLines.Length ==> allLines[k] == original[k]
        invariant whole == Resume(ScanFrom(allLines[..], kinds, lineIndex, hearing), pois)
      {
        ScanAdvances(whole, allLines[..], kinds, lineIndex, hearing, pois);
        var stop, found := HandleLine(allLines, lineIndex, hearing, parse, original);
        if stop {
          r := found;
          break;
        }
        lineIndex := lineIndex + 1;
      }
    }
  }
}
