/** Reading a program's event payloads out of a transaction's log, and the inverse: printing the
    log of a call tree. */
module LogExtraction {
  import opened Rust
  import opened Text

  const PROGRAM := "Program "
  const INVOKE := " invoke ["
  const SUCCESS := " success"
  const FAILED := " failed: "
  const DATA := "Program data: "

  datatype Line = Enter(program: string) | Leave | Other

  /** How one line moves the call stack. */
  function Classify(log: string): Line {
    match StripPrefix(log, PROGRAM)
    case None => Other
    case Some(rest) =>
      match SplitOnce(rest, INVOKE)
      case Some(parts) => Enter(parts.0)
      case None => if EndsWith(rest, SUCCESS) || Contains(rest, FAILED) then Leave else Other
  }

  function Pop(stack: seq<string>): seq<string> {
    if stack == [] then [] else stack[..|stack| - 1]
  }

  predicate OnTop(stack: seq<string>, target: string) {
    stack != [] && stack[|stack| - 1] == target
  }

  function Move(stack: seq<string>, log: string): seq<string> {
    match Classify(log)
    case Enter(program) => stack + [program]
    case Leave => Pop(stack)
    case Other => stack
  }

  /** What one line contributes. */
  function Pick(stack: seq<string>, target: string, index: nat, log: string): seq<(nat, string)> {
    if Classify(log) == Other && OnTop(stack, target) && StripPrefix(log, DATA).Some?
    then [(index, StripPrefix(log, DATA).value)]
    else []
  }

  /** The payloads of the lines from `index` on, and the stack they leave. */
  function Scan(logs: seq<string>, target: string, stack: seq<string>, index: nat): (seq<(nat, string)>, seq<string>) {
    if logs == [] then ([], stack)
    else
      var rest := Scan(logs[1..], target, Move(stack, logs[0]), index + 1);
      (Pick(stack, target, index, logs[0]) + rest.0, rest.1)
  }

  lemma {:induction false} ScanAppend(a: seq<string>, b: seq<string>, target: string, stack: seq<string>, index: nat)
    ensures var first := Scan(a, target, stack, index);
            var second := Scan(b, target, first.1, index + |a|);
            Scan(a + b, target, stack, index) == (first.0 + second.0, second.1)
  {
    hide Pick, Move;
    if a == [] {
      var second := Scan(b, target, stack, index);
      assert a + b == b && [] + second.0 == second.0;
    } else {
      var next := Move(stack, a[0]);
      ScanAppend(a[1..], b, target, next, index + 1);
      assert (a + b)[1..] == a[1..] + b && (a + b)[0] == a[0];
      var rest := Scan(a[1..], target, next, index + 1);
      var second := Scan(b, target, rest.1, index + |a|);
      assert index + 1 + |a[1..]| == index + |a|;
      assert (Pick(stack, target, index, a[0]) + rest.0) + second.0
          == Pick(stack, target, index, a[0]) + (rest.0 + second.0);
    }
  }

  /** The log reader: one pass over the lines with an explicit stack. */
  method ProgramDataLogs(logs: seq<string>, target: string) returns (result: seq<(nat, string)>)
    ensures result == Scan(logs, target, [], 0).0
  {
    hide Scan, SplitOnce, EndsWith, Contains;
    ScanNone(target, 0);
    var stack: seq<string> := [];
    result := [];
    for index := 0 to |logs|
      invariant Scan(logs[..index], target, [], 0) == (result, stack)
    {
      var log := logs[index];
      ScanLast(logs[..index + 1], target);
      assert logs[..index + 1][..index] == logs[..index];
      assert result + [] == result;
      var stripped := StripPrefix(log, PROGRAM);
      if stripped.Some? {
        var parts := SplitOnce(stripped.value, INVOKE);
        if parts.Some? {
          stack := stack + [parts.value.0];
          continue;
        }
        if EndsWith(stripped.value, SUCCESS) || Contains(stripped.value, FAILED) {
          if |stack| > 0 {
            stack := stack[..|stack| - 1];
          }
          continue;
        }
      }
      if |stack| > 0 && stack[|stack| - 1] == target {
        var encoded := StripPrefix(log, DATA);
        if encoded.Some? {
          result := result + [(index, encoded.value)];
        }
      }
    }
    assert logs[..|logs|] == logs;
  }

  lemma ScanNone(target: string, index: nat)
    ensures Scan([], target, [], index) == ([], [])
  {
  }

  /** One more line at the end. */
  lemma ScanLast(logs: seq<string>, target: string)
    requires logs != []
    ensures var last := |logs| - 1;
            var before := Scan(logs[..last], target, [], 0);
            Scan(logs, target, [], 0)
                == (before.0 + Pick(before.1, target, last, logs[last]), Move(before.1, logs[last]))
  {
    hide Pick, Move, Scan;
    var last := |logs| - 1;
    ScanAppend(logs[..last], [logs[last]], target, [], 0);
    ScanOne(logs[last], target, Scan(logs[..last], target, [], 0).1, last);
    assert logs == logs[..last] + [logs[last]];
  }

  // ----- printing

  datatype End = Succeeded | FailedWith(reason: string)
  datatype Item = Data(payload: string) | Text(line: string) | Call(frame: Frame)
  datatype Frame = Frame(program: string, depth: string, items: seq<Item>, end: End)

  function EnterLine(f: Frame): string {
    "Program " + (f.program + " invoke [" + (f.depth + "]"))
  }

  function LeaveLine(f: Frame): string {
    match f.end
    case Succeeded => "Program " + (f.program + " success")
    case FailedWith(reason) => "Program " + (f.program + (" failed: " + reason))
  }

  function DataLine(payload: string): string {
    "Program data: " + payload
  }

  function Print(f: Frame): seq<string>
    decreases f, 0
  {
    [EnterLine(f)] + PrintItems(f.items) + [LeaveLine(f)]
  }

  function PrintItem(item: Item): seq<string>
    decreases item, 0
  {
    match item
    case Data(payload) => [DataLine(payload)]
    case Text(line) => [line]
    case Call(frame) => Print(frame)
  }

  function PrintItems(items: seq<Item>): seq<string>
    decreases items, 0
  {
    if items == [] then [] else PrintItem(items[0]) + PrintItems(items[1..])
  }

  /** The payloads emitted directly by frames of the target, with the lines they are printed on. */
  function Payloads(f: Frame, target: string, index: nat): seq<(nat, string)>
    decreases f, 0
  {
    ItemsPayloads(f.items, f.program == target, target, index + 1)
  }

  function ItemPayloads(item: Item, own: bool, target: string, index: nat): seq<(nat, string)>
    decreases item, 0
  {
    match item
    case Data(payload) => if own then [(index, payload)] else []
    case Text(_) => []
    case Call(frame) => Payloads(frame, target, index)
  }

  function ItemsPayloads(items: seq<Item>, own: bool, target: string, index: nat): seq<(nat, string)>
    decreases items, 0
  {
    if items == [] then []
    else
      ItemPayloads(items[0], own, target, index)
        + ItemsPayloads(items[1..], own, target, index + |PrintItem(items[0])|)
  }

  /** The rest of a data line reads like a line of the runtime itself. */
  predicate Imitates(payload: string) {
    Contains(" " + payload, INVOKE) || Contains(" " + payload, FAILED) || EndsWith(" " + payload, SUCCESS)
  }

  /** Program names are words, and neither payloads nor free text nor failure reasons imitate the
      runtime's own lines. */
  predicate Printable(f: Frame)
    decreases f, 0
  {
    && NoSpace(f.program)
    && (f.end.FailedWith? ==> !Contains(" " + f.end.reason, INVOKE))
    && AllPrintable(f.items)
  }

  predicate PrintableItem(item: Item)
    decreases item, 0
  {
    match item
    case Data(payload) => !Imitates(payload)
    case Text(line) => Classify(line) == Other && StripPrefix(line, DATA).None?
    case Call(frame) => Printable(frame)
  }

  predicate AllPrintable(items: seq<Item>)
    decreases items, 0
  {
    items == [] || (PrintableItem(items[0]) && AllPrintable(items[1..]))
  }

  // ----- what each printed line is

  lemma StripAdded(prefix: string, rest: string)
    ensures StripPrefix(prefix + rest, prefix) == Some(rest)
  {
  }

  lemma EnterLineEnters(f: Frame)
    requires NoSpace(f.program)
    ensures Classify(EnterLine(f)) == Enter(f.program)
  {
    hide SplitOnce;
    assert f.program + INVOKE + (f.depth + "]") == f.program + (INVOKE + (f.depth + "]"));
    StripAdded(PROGRAM, f.program + INVOKE + (f.depth + "]"));
    SplitAfterWord(f.program, INVOKE, f.depth + "]");
  }

  lemma SucceededLeaves(program: string)
    requires NoSpace(program)
    ensures Classify(PROGRAM + (program + SUCCESS)) == Leave
  {
    hide SplitOnce, Contains;
    StripAdded(PROGRAM, program + SUCCESS);
    SuccessHasNoInvoke();
    AbsentAfterWord(program, SUCCESS, INVOKE);
    AbsentNotFound(program + SUCCESS, INVOKE);
    assert (program + SUCCESS)[|program|..] == SUCCESS;
  }

  lemma SuccessHasNoInvoke()
    ensures Absent(SUCCESS, INVOKE)
  {
  }

  lemma FailedHasNoInvoke(reason: string)
    requires Absent(" " + reason, INVOKE)
    ensures Absent(FAILED + reason, INVOKE)
  {
    hide OccursAt;
    var head := " failed:";
    var tail := head + (" " + reason);
    assert FAILED + reason == tail;
    assert forall k :: 0 <= k < 8 ==> tail[k] == head[k];
    assert forall k :: 1 <= k < 8 ==> head[k] != ' ';
    forall j: nat
      ensures !OccursAt(tail, INVOKE, j)
    {
      if j < 8 {
        OccursChar(tail, INVOKE, j, 0);
        OccursChar(tail, INVOKE, j, 1);
      } else {
        OccursShift(head, " " + reason, INVOKE, j - 8);
      }
    }
  }

  lemma FailedLeaves(program: string, reason: string)
    requires NoSpace(program) && !Contains(" " + reason, INVOKE)
    ensures Classify(PROGRAM + (program + (FAILED + reason))) == Leave
  {
    hide SplitOnce, Contains;
    var rest := program + (FAILED + reason);
    StripAdded(PROGRAM, rest);
    AbsentNotFound(" " + reason, INVOKE);
    FailedHasNoInvoke(reason);
    AbsentAfterWord(program, FAILED + reason, INVOKE);
    AbsentNotFound(rest, INVOKE);
    OccursShift(program, FAILED + reason, FAILED, 0);
    assert (FAILED + reason)[0..|FAILED|] == FAILED;
    AbsentNotFound(rest, FAILED);
  }

  /** A data line is read as one exactly when its payload does not imitate the runtime. */
  lemma DataLineExactly(payload: string)
    ensures Classify(DataLine(payload)) == Other <==> !Imitates(payload)
    ensures StripPrefix(DataLine(payload), DATA) == Some(payload)
  {
    hide SplitOnce, Contains, EndsWith;
    var tail := " " + payload;
    assert DataLine(payload) == PROGRAM + ("data:" + tail);
    StripAdded(PROGRAM, "data:" + tail);
    StripAdded(DATA, payload);
    AbsentAfterWord("data:", tail, INVOKE);
    AbsentAfterWord("data:", tail, FAILED);
    EndsAfterWord("data:", tail, SUCCESS);
    AbsentNotFound("data:" + tail, INVOKE);
    AbsentNotFound("data:" + tail, FAILED);
    AbsentNotFound(tail, INVOKE);
    AbsentNotFound(tail, FAILED);
  }

  lemma NotInOneWord(payload: string, pattern: string, k: nat)
    requires NoSpace(payload) && 0 < k < |pattern| && pattern[k] == ' '
    ensures Absent(" " + payload, pattern)
  {
    hide OccursAt;
    forall j: nat
      ensures !OccursAt(" " + payload, pattern, j)
    {
      OccursChar(" " + payload, pattern, j, k);
    }
  }

  /** A payload of one word imitates the runtime only by reading "success": that line, and no other,
      is taken for the end of the call. */
  lemma OneWordPayloads(payload: string)
    requires NoSpace(payload)
    ensures Imitates(payload) <==> payload == "success"
    ensures Classify(DataLine(payload)) == if payload == "success" then Leave else Other
  {
    hide Contains, EndsWith, Classify;
    NotInOneWord(payload, INVOKE, 7);
    NotInOneWord(payload, FAILED, 8);
    AbsentNotFound(" " + payload, INVOKE);
    AbsentNotFound(" " + payload, FAILED);
    WordSuffix(payload);
    DataLineExactly(payload);
    SuccessLeaves();
  }

  lemma SuccessLeaves()
    ensures Classify(DataLine("success")) == Leave
  {
    hide SplitOnce, Contains, EndsWith;
    assert DataLine("success") == PROGRAM + ("data:" + SUCCESS);
    StripAdded(PROGRAM, "data:" + SUCCESS);
    SuccessHasNoInvoke();
    AbsentAfterWord("data:", SUCCESS, INVOKE);
    AbsentNotFound("data:" + SUCCESS, INVOKE);
    EndsAfterWord("data:", SUCCESS, SUCCESS);
    WordSuffix("success");
    assert " " + "success" == SUCCESS;
  }

  lemma WordSuffix(payload: string)
    requires NoSpace(payload)
    ensures EndsWith(" " + payload, SUCCESS) <==> payload == "success"
  {
    var tail := " " + payload;
    if |tail| > 8 {
      assert tail[|tail| - 8..][0] == payload[|tail| - 9];
    } else if |tail| == 8 {
      assert tail[0..] == tail && SUCCESS == " " + "success" && tail[1..] == payload && SUCCESS[1..] == "success";
    }
    assert payload == "success" ==> |tail| == 8;
  }

  /** Several payloads of one emission are printed on one line. */
  function Joined(fields: seq<string>): string {
    if fields == [] then ""
    else if |fields| == 1 then fields[0]
    else Joined(fields[..|fields| - 1]) + " " + fields[|fields| - 1]
  }

  /** Padded base64: a word of a length divisible by four, without brackets and colons. */
  predicate PaddedBase64(field: string) {
    NoSpace(field) && '[' !in field && ':' !in field && |field| % 4 == 0
  }

  lemma {:induction false} JoinedChars(fields: seq<string>, c: char)
    requires c != ' ' && forall f :: f in fields ==> c !in f
    ensures c !in Joined(fields)
  {
    if |fields| > 1 {
      JoinedChars(fields[..|fields| - 1], c);
    }
  }

  lemma NotWithoutChar(payload: string, pattern: string, k: nat)
    requires k < |pattern| && pattern[k] != ' ' && pattern[k] !in payload
    ensures !Contains(" " + payload, pattern)
  {
    hide OccursAt, Contains;
    forall j: nat
      ensures !OccursAt(" " + payload, pattern, j)
    {
      OccursChar(" " + payload, pattern, j, k);
    }
    AbsentNotFound(" " + payload, pattern);
  }

  /** No line of padded base64 fields imitates the runtime, however many there are. */
  lemma PaddedFieldsAreData(fields: seq<string>)
    requires forall f :: f in fields ==> PaddedBase64(f)
    ensures !Imitates(Joined(fields)) && Classify(DataLine(Joined(fields))) == Other
  {
    hide Contains, EndsWith, Joined, Classify;
    var payload := Joined(fields);
    JoinedChars(fields, '[');
    JoinedChars(fields, ':');
    NotWithoutChar(payload, INVOKE, 8);
    NotWithoutChar(payload, FAILED, 7);
    DataLineExactly(payload);
    JoinedEnd(fields);
  }

  lemma JoinedEnd(fields: seq<string>)
    requires forall f :: f in fields ==> NoSpace(f) && |f| % 4 == 0
    ensures !EndsWith(" " + Joined(fields), SUCCESS)
  {
    hide EndsWith;
    if fields == [] {
      assert " " + Joined(fields) == "" + (" " + "");
      LastWordSuffix("", "");
    } else {
      var last := fields[|fields| - 1];
      assert last in fields;
      var front := if |fields| == 1 then "" else " " + Joined(fields[..|fields| - 1]);
      assert " " + Joined(fields) == front + (" " + last);
      LastWordSuffix(front, last);
    }
  }

  lemma LastWordSuffix(front: string, last: string)
    requires NoSpace(last) && |last| % 4 == 0
    ensures !EndsWith(front + (" " + last), SUCCESS)
  {
    var s := front + (" " + last);
    var blank := |front|;
    assert s[blank] == ' ' && forall k :: blank < k < |s| ==> s[k] == last[k - blank - 1];
    assert |s| >= 8 ==> s[|s| - 8..][0] == s[|s| - 8];
    assert 8 <= |s| && |s| - 8 < blank ==> s[|s| - 8..][blank - (|s| - 8)] == ' ';
  }

  // ----- the inverse

  lemma ScanOne(log: string, target: string, stack: seq<string>, index: nat)
    ensures Scan([log], target, stack, index) == (Pick(stack, target, index, log), Move(stack, log))
  {
    hide Pick, Move;
    assert Scan([log][1..], target, Move(stack, log), index + 1) == ([], Move(stack, log));
    assert Pick(stack, target, index, log) + [] == Pick(stack, target, index, log);
  }

  lemma LeaveLineLeaves(f: Frame)
    requires NoSpace(f.program) && (f.end.FailedWith? ==> !Contains(" " + f.end.reason, INVOKE))
    ensures Classify(LeaveLine(f)) == Leave
  {
    hide Classify, Contains;
    match f.end
    case Succeeded => SucceededLeaves(f.program);
    case FailedWith(reason) => FailedLeaves(f.program, reason);
  }

  /** Scanning a printed frame yields its payloads and restores the stack. */
  lemma {:induction false} ScanPrint(f: Frame, target: string, stack: seq<string>, index: nat)
    requires Printable(f)
    ensures Scan(Print(f), target, stack, index) == (Payloads(f, target, index), stack)
    decreases f, 0
  {
    hide Classify, EnterLine, LeaveLine, Scan;
    var inner := stack + [f.program];
    var enter, body, leave := [EnterLine(f)], PrintItems(f.items), [LeaveLine(f)];
    EnterLineEnters(f);
    LeaveLineLeaves(f);
    ScanOne(EnterLine(f), target, stack, index);
    ScanItems(f.items, target, inner, index + 1);
    ScanOne(LeaveLine(f), target, inner, index + 1 + |body|);
    ScanAppend(enter, body, target, stack, index);
    ScanAppend(enter + body, leave, target, stack, index);
    assert inner[..|inner| - 1] == stack;
    assert index + |enter + body| == index + 1 + |body|;
    assert Pick(stack, target, index, EnterLine(f)) == [] && Move(stack, EnterLine(f)) == inner;
    assert Pick(inner, target, index + 1 + |body|, LeaveLine(f)) == [] && Move(inner, LeaveLine(f)) == stack;
    var middle := ItemsPayloads(f.items, f.program == target, target, index + 1);
    assert [] + middle + [] == middle;
  }

  lemma {:induction false} ScanItem(item: Item, target: string, stack: seq<string>, index: nat)
    requires PrintableItem(item) && stack != []
    ensures Scan(PrintItem(item), target, stack, index)
         == (ItemPayloads(item, stack[|stack| - 1] == target, target, index), stack)
    decreases item, 0
  {
    hide Classify, DataLine, Scan;
    match item
    case Data(payload) =>
      DataLineExactly(payload);
      ScanOne(DataLine(payload), target, stack, index);
    case Text(line) =>
      ScanOne(line, target, stack, index);
    case Call(frame) =>
      ScanPrint(frame, target, stack, index);
  }

  lemma {:induction false} ScanItems(items: seq<Item>, target: string, stack: seq<string>, index: nat)
    requires AllPrintable(items) && stack != []
    ensures Scan(PrintItems(items), target, stack, index)
         == (ItemsPayloads(items, stack[|stack| - 1] == target, target, index), stack)
    decreases items, 0
  {
    hide Pick, Move, PrintItem, PrintableItem, ItemPayloads;
    if items != [] {
      ScanItem(items[0], target, stack, index);
      ScanItems(items[1..], target, stack, index + |PrintItem(items[0])|);
      ScanAppend(PrintItem(items[0]), PrintItems(items[1..]), target, stack, index);
    }
  }

  function PrintCalls(calls: seq<Frame>): seq<string> {
    if calls == [] then [] else Print(calls[0]) + PrintCalls(calls[1..])
  }

  function CallPayloads(calls: seq<Frame>, target: string, index: nat): seq<(nat, string)> {
    if calls == [] then []
    else Payloads(calls[0], target, index) + CallPayloads(calls[1..], target, index + |Print(calls[0])|)
  }

  /** Log extraction inverts log printing: the top-level calls of a transaction, printed one after
      the other, give back exactly the target's payloads in order, each with its line index. */
  lemma {:induction false} ExtractionInvertsPrinting(calls: seq<Frame>, target: string, index: nat)
    requires forall f :: f in calls ==> Printable(f)
    ensures Scan(PrintCalls(calls), target, [], index) == (CallPayloads(calls, target, index), [])
  {
    hide Pick, Move, Print, Printable, Payloads, Scan;
    if calls == [] {
      ScanNone(target, index);
    } else {
      ScanPrint(calls[0], target, [], index);
      ExtractionInvertsPrinting(calls[1..], target, index + |Print(calls[0])|);
      ScanAppend(Print(calls[0]), PrintCalls(calls[1..]), target, [], index);
    }
  }
}
