/** Printing and reading GPU records, and the choice of a GPU (scripts/setup/lib/vulkan_gpu_probe.py). */
module GpuRecords {
  import opened Base
  import opened Text

  datatype Gpu = Gpu(
    index: int, free: int, budget: int, usage: int, name: string, slot: string, monitors: int)

  datatype RecordError = MissingKey(key: string) | NotAnInteger(key: string)

  // ---------------------------------------------------------------- decimal integers

  function Digit(d: nat): char
    requires d < 10
  {
    '0' + d as char
  }

  function PrintNat(n: nat): (s: string)
    ensures s != "" && forall c <- s :: '0' <= c <= '9'
  {
    if n < 10 then [Digit(n)] else PrintNat(n / 10) + [Digit(n % 10)]
  }

  function PrintInt(n: int): string {
    if n < 0 then "-" + PrintNat(-n) else PrintNat(n)
  }

  /** Decimal digits, with single underscores between them allowed. */
  function ParseNat(s: string): Option<nat> {
    if s == "" || !('0' <= s[|s| - 1] <= '9') then None
    else
      var digit := (s[|s| - 1] - '0') as nat;
      if |s| == 1 then Some(digit)
      else
        var higher := ParseNat(if s[|s| - 2] == '_' then s[..|s| - 2] else s[..|s| - 1]);
        if higher.None? then None else Some(10 * higher.value + digit)
  }

  /** Python's `int(text)` for ASCII digits. */
  function ParseInt(text: string): Option<int> {
    var s := Strip(text, IsPythonSpace);
    if s != "" && (s[0] == '-' || s[0] == '+') then
      var n := ParseNat(s[1..]);
      if n.None? then None
      else
        var size: int := n.value;
        Some(if s[0] == '-' then -size else size)
    else ParseNat(s)
  }

  lemma {:induction false} NatRoundTrip(n: nat)
    ensures ParseNat(PrintNat(n)) == Some(n)
  {
    if n >= 10 {
      NatRoundTrip(n / 10);
      var s := PrintNat(n);
      assert s[..|s| - 1] == PrintNat(n / 10);
      assert s[|s| - 2] in PrintNat(n / 10);
    }
  }

  lemma PrintedIsBare(n: int)
    ensures PrintInt(n) != "" && BareEnds(PrintInt(n), IsPythonSpace)
    ensures StripEnd(PrintInt(n), IsPythonSpace) == PrintInt(n)
  {
    var s, digits := PrintInt(n), PrintNat(if n < 0 then -n else n);
    assert digits[0] in digits && digits[|digits| - 1] in digits;
    assert s[|s| - 1] == digits[|digits| - 1];
  }

  lemma IntRoundTrip(n: int)
    ensures ParseInt(PrintInt(n)) == Some(n)
  {
    PrintedIsBare(n);
    StripBaresEnds(PrintInt(n), IsPythonSpace);
    NatRoundTrip(if n < 0 then -n else n);
    if n < 0 {
      assert PrintInt(n)[1..] == PrintNat(-n);
    } else {
      assert PrintNat(n)[0] in PrintNat(n);
    }
  }

  // ---------------------------------------------------------------- lines

  /** The line boundaries of Python's `str.splitlines`. */
  predicate IsBreak(c: char) {
    || '\n' <= c <= '\r' || '\U{1C}' <= c <= '\U{1E}' || c == '\U{85}' || c == '\U{2028}' || c == '\U{2029}'
  }

  function BreakAt(s: string): (k: nat)
    ensures k <= |s| && (forall i :: 0 <= i < k ==> !IsBreak(s[i])) && (k < |s| ==> IsBreak(s[k]))
  {
    if s == "" || IsBreak(s[0]) then 0 else 1 + BreakAt(s[1..])
  }

  function SplitLines(s: string): seq<string>
    decreases |s|
  {
    var k := BreakAt(s);
    if s == "" then []
    else if k == |s| then [s]
    else [s[..k]] + SplitLines(s[k + (if s[k] == '\r' && k + 1 < |s| && s[k + 1] == '\n' then 2 else 1)..])
  }

  predicate NoBreak(s: string) {
    forall c <- s :: !IsBreak(c)
  }

  /** Every line followed by a line feed. */
  function Terminated(lines: seq<string>): string {
    if lines == [] then "" else lines[0] + "\n" + Terminated(lines[1..])
  }

  lemma {:induction false} JoinTerminates(lines: seq<string>)
    requires lines != []
    ensures Join(lines, "\n") + "\n" == Terminated(lines)
  {
    if |lines| > 1 {
      JoinTerminates(lines[1..]);
      assert Join(lines, "\n") + "\n" == lines[0] + "\n" + (Join(lines[1..], "\n") + "\n");
    } else {
      assert Terminated(lines[1..]) == "";
    }
  }

  lemma SplitFirst(line: string, rest: string)
    requires NoBreak(line)
    ensures SplitLines(line + "\n" + rest) == [line] + SplitLines(rest)
  {
    var s, k := line + "\n" + rest, |line|;
    assert s[k] == '\n' && IsBreak(s[k]);
    assert BreakAt(s) == k by {
      forall i | 0 <= i < k ensures !IsBreak(s[i]) {
        assert s[i] == line[i] && line[i] in line;
      }
    }
    var head := line + "\n";
    assert s == head + rest && |head| == k + 1;
    assert s[..k] == line;
    assert s[k + 1..] == rest;
  }

  lemma {:induction false} SplitTerminated(lines: seq<string>)
    requires forall line <- lines :: NoBreak(line)
    ensures SplitLines(Terminated(lines)) == lines
  {
    if lines != [] {
      SplitFirst(lines[0], Terminated(lines[1..]));
      SplitTerminated(lines[1..]);
      assert lines == [lines[0]] + lines[1..];
    }
  }

  lemma {:induction false} LinesHaveNoBreak(s: string)
    ensures forall line <- SplitLines(s) :: NoBreak(line)
    decreases |s|
  {
    var k := BreakAt(s);
    if s != "" && k < |s| {
      LinesHaveNoBreak(s[k + (if s[k] == '\r' && k + 1 < |s| && s[k + 1] == '\n' then 2 else 1)..]);
    }
  }

  // ---------------------------------------------------------------- records

  function Line(key: string, value: string): string {
    key + "=" + value
  }

  /** The lines of a record, by their number. */
  function LineOf(g: Gpu, k: nat): string
    requires k < 8
  {
    match k
    case 0 => Line("GPU_INDEX", PrintInt(g.index))
    case 1 => Line("FREE_BYTES", PrintInt(g.free))
    case 2 => Line("BUDGET_BYTES", PrintInt(g.budget))
    case 3 => Line("USAGE_BYTES", PrintInt(g.usage))
    case 4 => Line("DEVICE_NAME", g.name)
    case 5 => Line("PCI_SLOT", g.slot)
    case 6 => Line("MONITOR_COUNT", PrintInt(g.monitors))
    case _ => "---"
  }

  function FirstLines(g: Gpu, count: nat): (lines: seq<string>)
    requires count <= 8
    ensures |lines| == count && forall k :: 0 <= k < count ==> lines[k] == LineOf(g, k)
  {
    if count == 0 then [] else FirstLines(g, count - 1) + [LineOf(g, count - 1)]
  }

  function Record(g: Gpu): seq<string> {
    FirstLines(g, 8)
  }

  function Records(gpus: seq<Gpu>): seq<string> {
    if gpus == [] then [] else Record(gpus[0]) + Records(gpus[1..])
  }

  /** What `format_shell_records` writes. */
  function Format(gpus: seq<Gpu>): string {
    Terminated(Records(gpus))
  }

  lemma {:induction false} RecordsAppend(gpus: seq<Gpu>, g: Gpu)
    ensures Records(gpus + [g]) == Records(gpus) + Record(g)
  {
    if gpus == [] {
      assert gpus + [g] == [g] && [g][1..] == [];
    } else {
      RecordsAppend(gpus[1..], g);
      TailOfConcat(gpus, [g]);
      ConcatAssociates(Record(gpus[0]), Records(gpus[1..]), Record(g));
    }
  }

  lemma RecordsStep(gpus: seq<Gpu>, i: nat)
    requires i < |gpus|
    ensures Records(gpus[..i + 1]) == Records(gpus[..i]) + Record(gpus[i])
  {
    RecordsAppend(gpus[..i], gpus[i]);
    assert gpus[..i + 1] == gpus[..i] + [gpus[i]];
  }

  method FormatShellRecords(gpus: seq<Gpu>) returns (text: string)
    ensures text == Format(gpus)
  {
    var lines: seq<string> := [];
    for i := 0 to |gpus|
      invariant lines == Records(gpus[..i])
    {
      RecordsStep(gpus, i);
      lines := lines + Record(gpus[i]);
    }
    assert gpus[..|gpus|] == gpus;
    if lines != [] {
      JoinTerminates(lines);
    }
    text := Join(lines, "\n") + if lines != [] then "\n" else "";
  }

  /** A required field, read as an integer. */
  function IntField(fields: map<string, string>, key: string): Result<int, RecordError> {
    if key !in fields then Err(MissingKey(key))
    else
      var n := ParseInt(fields[key]);
      if n.None? then Err(NotAnInteger(key)) else Ok(n.value)
  }

  function TextField(fields: map<string, string>, key: string, default: string): string {
    if key in fields then fields[key] else default
  }

  /** `_gpu_from_record_fields`: the first field that is missing or malformed raises. */
  function FromFields(fields: map<string, string>): Result<Gpu, RecordError> {
    var index := IntField(fields, "GPU_INDEX");
    if index.Err? then Err(index.error) else
    var free := IntField(fields, "FREE_BYTES");
    if free.Err? then Err(free.error) else
    var budget := IntField(fields, "BUDGET_BYTES");
    if budget.Err? then Err(budget.error) else
    var usage := IntField(fields, "USAGE_BYTES");
    if usage.Err? then Err(usage.error) else
    var monitors := ParseInt(TextField(fields, "MONITOR_COUNT", "0"));
    if monitors.None? then Err(NotAnInteger("MONITOR_COUNT"))
    else
      Ok(Gpu(index.value, free.value, budget.value, usage.value,
             TextField(fields, "DEVICE_NAME", ""), TextField(fields, "PCI_SLOT", ""), monitors.value))
  }

  function EqualsAt(line: string): (k: nat)
    ensures k <= |line| && (k < |line| ==> line[k] == '=') && (forall i :: 0 <= i < k ==> line[i] != '=')
  {
    if line == "" || line[0] == '=' then 0 else 1 + EqualsAt(line[1..])
  }

  function Prepend(g: Gpu, r: Result<seq<Gpu>, RecordError>): Result<seq<Gpu>, RecordError> {
    if r.Ok? then Ok([g] + r.value) else r
  }

  /** The GPUs of the lines that remain, when `fields` has been read of the current record. */
  function Parsed(lines: seq<string>, fields: map<string, string>): Result<seq<Gpu>, RecordError> {
    if lines == [] then
      if fields == map[] then Ok([])
      else
        var g := FromFields(fields);
        if g.Err? then Err(g.error) else Ok([g.value])
    else
      var line := Strip(lines[0], IsPythonSpace);
      var k := EqualsAt(line);
      if line == "---" then
        if fields == map[] then Parsed(lines[1..], map[])
        else
          var g := FromFields(fields);
          if g.Err? then Err(g.error) else Prepend(g.value, Parsed(lines[1..], map[]))
      else if k == |line| then Parsed(lines[1..], fields)
      else Parsed(lines[1..], fields[line[..k] := line[k + 1..]])
  }

  /** What `parse_shell_records` reads. */
  function Parse(text: string): Result<seq<Gpu>, RecordError> {
    Parsed(SplitLines(text), map[])
  }

  /** The GPUs read so far, before those of the rest. */
  function After(gpus: seq<Gpu>, r: Result<seq<Gpu>, RecordError>): Result<seq<Gpu>, RecordError> {
    if r.Ok? then Ok(gpus + r.value) else r
  }

  lemma AfterOneMore(gpus: seq<Gpu>, g: Gpu, r: Result<seq<Gpu>, RecordError>)
    ensures After(gpus + [g], r) == After(gpus, Prepend(g, r))
  {
    if r.Ok? {
      ConcatAssociates(gpus, [g], r.value);
    }
  }

  lemma AfterNothing(r: Result<seq<Gpu>, RecordError>)
    ensures After([], r) == r
  {
    if r.Ok? {
      assert [] + r.value == r.value;
    }
  }

  method ParseShellRecords(text: string) returns (r: Result<seq<Gpu>, RecordError>)
    ensures r == Parse(text)
  {
    var lines := SplitLines(text);
    var gpus: seq<Gpu> := [];
    var current: map<string, string> := map[];
    assert lines[0..] == lines;
    AfterNothing(Parse(text));
    for i := 0 to |lines|
      invariant Parse(text) == After(gpus, Parsed(lines[i..], current))
    {
      assert lines[i..][1..] == lines[i + 1..];
      var line := Strip(lines[i], IsPythonSpace);
      if line == "---" {
        if current != map[] {
          var g := FromFields(current);
          if g.Err? {
            return Err(g.error);
          }
          AfterOneMore(gpus, g.value, Parsed(lines[i + 1..], map[]));
          gpus := gpus + [g.value];
          current := map[];
        }
        continue;
      }
      var k := EqualsAt(line);
      if k == |line| {
        continue;
      }
      current := current[line[..k] := line[k + 1..]];
    }
    if current != map[] {
      var g := FromFields(current);
      if g.Err? {
        return Err(g.error);
      }
      gpus := gpus + [g.value];
    }
    r := Ok(gpus);
    assert gpus + [] == gpus;
  }

  // ---------------------------------------------------------------- round trip

  /** What printing and reading keeps of a text. */
  predicate Kept(s: string) {
    NoBreak(s) && (s != "" ==> !IsPythonSpace(s[|s| - 1]))
  }

  predicate Clean(g: Gpu) {
    Kept(g.name) && Kept(g.slot)
  }

  /** The GPU without blanks at the end of its texts. */
  function Bare(g: Gpu): Gpu {
    g.(name := StripEnd(g.name, IsPythonSpace), slot := StripEnd(g.slot, IsPythonSpace))
  }

  function Bared(gpus: seq<Gpu>): (r: seq<Gpu>)
    ensures |r| == |gpus| && forall i :: 0 <= i < |gpus| ==> r[i] == Bare(gpus[i])
  {
    seq(|gpus|, i requires 0 <= i < |gpus| => Bare(gpus[i]))
  }

  lemma {:induction false} StripEndAfter(a: string, v: string)
    requires a != "" && !IsPythonSpace(a[|a| - 1])
    ensures StripEnd(a + v, IsPythonSpace) == a + StripEnd(v, IsPythonSpace)
  {
    if v == "" {
      assert a + v == a;
    } else if IsPythonSpace(v[|v| - 1]) {
      assert (a + v)[..|a + v| - 1] == a + v[..|v| - 1];
      StripEndAfter(a, v[..|v| - 1]);
    }
  }

  predicate IsKey(key: string) {
    key != "" && forall i :: 0 <= i < |key| ==> 'A' <= key[i] <= 'Z' || key[i] == '_'
  }

  lemma TheKeysAreKeys()
    ensures IsKey("GPU_INDEX") && IsKey("FREE_BYTES") && IsKey("BUDGET_BYTES") && IsKey("USAGE_BYTES")
    ensures IsKey("DEVICE_NAME") && IsKey("PCI_SLOT") && IsKey("MONITOR_COUNT")
  {
  }

  /** A line that assigns a value to a key. */
  lemma FieldLine(lines: seq<string>, k: nat, fields: map<string, string>, key: string, value: string)
    requires IsKey(key) && k < |lines| && lines[k] == Line(key, value)
    ensures Parsed(lines[k..], fields) == Parsed(lines[k + 1..], fields[key := StripEnd(value, IsPythonSpace)])
  {
    var a := key + "=";
    var line := a + StripEnd(value, IsPythonSpace);
    StripEndAfter(a, value);
    assert StripStart(a + value, IsPythonSpace) == a + value;
    assert line[|key|] == '=';
    assert EqualsAt(line) == |key| by {
      forall i | 0 <= i < |key| ensures line[i] != '=' {
        assert line[i] == key[i] && key[i] in key;
      }
    }
    assert line[..|key|] == key && line[|key| + 1..] == StripEnd(value, IsPythonSpace);
    assert lines[k..][0] == a + value && lines[k..][1..] == lines[k + 1..];
  }

  lemma NumberLine(lines: seq<string>, k: nat, fields: map<string, string>, key: string, n: int)
    requires IsKey(key) && k < |lines| && lines[k] == Line(key, PrintInt(n))
    ensures Parsed(lines[k..], fields) == Parsed(lines[k + 1..], fields[key := PrintInt(n)])
  {
    FieldLine(lines, k, fields, key, PrintInt(n));
    PrintedIsBare(n);
  }

  function NumbersOf(g: Gpu): map<string, string> {
    map["GPU_INDEX" := PrintInt(g.index)]["FREE_BYTES" := PrintInt(g.free)]
       ["BUDGET_BYTES" := PrintInt(g.budget)]["USAGE_BYTES" := PrintInt(g.usage)]
  }

  /** The fields that the lines of one record leave behind. */
  function FieldsOf(g: Gpu): map<string, string> {
    NumbersOf(g)["DEVICE_NAME" := StripEnd(g.name, IsPythonSpace)]
                ["PCI_SLOT" := StripEnd(g.slot, IsPythonSpace)]["MONITOR_COUNT" := PrintInt(g.monitors)]
  }

  lemma NumbersDiffer()
    ensures "GPU_INDEX" != "FREE_BYTES" && "GPU_INDEX" != "BUDGET_BYTES" && "GPU_INDEX" != "USAGE_BYTES"
    ensures "FREE_BYTES" != "BUDGET_BYTES" && "FREE_BYTES" != "USAGE_BYTES" && "BUDGET_BYTES" != "USAGE_BYTES"
  {
  }

  /** The last three keys differ from each other and from a key `k` of another length or first letter. */
  lemma TextsDiffer(k: string)
    requires k in {"GPU_INDEX", "FREE_BYTES", "BUDGET_BYTES", "USAGE_BYTES"}
    ensures k != "DEVICE_NAME" && k != "PCI_SLOT" && k != "MONITOR_COUNT"
  {
    assert "DEVICE_NAME"[0] != "USAGE_BYTES"[0];
  }

  lemma NumberIsRead(g: Gpu, key: string, n: int)
    requires key in {"GPU_INDEX", "FREE_BYTES", "BUDGET_BYTES", "USAGE_BYTES"}
    requires key in NumbersOf(g) && NumbersOf(g)[key] == PrintInt(n)
    ensures IntField(FieldsOf(g), key) == Ok(n)
  {
    TextsDiffer(key);
    IntRoundTrip(n);
  }

  lemma NumbersAreRead(g: Gpu)
    ensures IntField(FieldsOf(g), "GPU_INDEX") == Ok(g.index)
    ensures IntField(FieldsOf(g), "FREE_BYTES") == Ok(g.free)
    ensures IntField(FieldsOf(g), "BUDGET_BYTES") == Ok(g.budget)
    ensures IntField(FieldsOf(g), "USAGE_BYTES") == Ok(g.usage)
  {
    NumbersDiffer();
    NumberIsRead(g, "GPU_INDEX", g.index);
    NumberIsRead(g, "FREE_BYTES", g.free);
    NumberIsRead(g, "BUDGET_BYTES", g.budget);
    NumberIsRead(g, "USAGE_BYTES", g.usage);
  }

  lemma FieldsAreRead(g: Gpu)
    ensures FromFields(FieldsOf(g)) == Ok(Bare(g))
  {
    NumbersAreRead(g);
    IntRoundTrip(g.monitors);
    assert |"DEVICE_NAME"| == 11 && |"PCI_SLOT"| == 8 && |"MONITOR_COUNT"| == 13;
  }

  /** The lines begin with those of one record. */
  predicate BeginsWith(lines: seq<string>, g: Gpu) {
    && |lines| >= 8
    && lines[0] == Line("GPU_INDEX", PrintInt(g.index)) && lines[1] == Line("FREE_BYTES", PrintInt(g.free))
    && lines[2] == Line("BUDGET_BYTES", PrintInt(g.budget)) && lines[3] == Line("USAGE_BYTES", PrintInt(g.usage))
    && lines[4] == Line("DEVICE_NAME", g.name) && lines[5] == Line("PCI_SLOT", g.slot)
    && lines[6] == Line("MONITOR_COUNT", PrintInt(g.monitors)) && lines[7] == "---"
  }

  lemma TwoNumbersAreLeft(
    lines: seq<string>, k: nat, fields: map<string, string>, key: string, n: int, key': string, n': int)
    requires k + 1 < |lines| && IsKey(key) && IsKey(key')
    requires lines[k] == Line(key, PrintInt(n)) && lines[k + 1] == Line(key', PrintInt(n'))
    ensures Parsed(lines[k..], fields) == Parsed(lines[k + 2..], fields[key := PrintInt(n)][key' := PrintInt(n')])
  {
    NumberLine(lines, k, fields, key, n);
    NumberLine(lines, k + 1, fields[key := PrintInt(n)], key', n');
  }

  lemma NumbersAreLeft(lines: seq<string>, g: Gpu)
    requires BeginsWith(lines, g)
    ensures Parsed(lines[0..], map[]) == Parsed(lines[4..], NumbersOf(g))
  {
    TheKeysAreKeys();
    var two := map["GPU_INDEX" := PrintInt(g.index)]["FREE_BYTES" := PrintInt(g.free)];
    TwoNumbersAreLeft(lines, 0, map[], "GPU_INDEX", g.index, "FREE_BYTES", g.free);
    TwoNumbersAreLeft(lines, 2, two, "BUDGET_BYTES", g.budget, "USAGE_BYTES", g.usage);
  }

  lemma FieldsAreLeft(lines: seq<string>, g: Gpu)
    requires BeginsWith(lines, g)
    ensures Parsed(lines[4..], NumbersOf(g)) == Parsed(lines[7..], FieldsOf(g))
  {
    TheKeysAreKeys();
    var f5 := NumbersOf(g)["DEVICE_NAME" := StripEnd(g.name, IsPythonSpace)];
    var f6 := f5["PCI_SLOT" := StripEnd(g.slot, IsPythonSpace)];
    FieldLine(lines, 4, NumbersOf(g), "DEVICE_NAME", g.name);
    FieldLine(lines, 5, f5, "PCI_SLOT", g.slot);
    NumberLine(lines, 6, f6, "MONITOR_COUNT", g.monitors);
  }

  lemma EndOfRecord(lines: seq<string>, k: nat, fields: map<string, string>, g: Gpu)
    requires k < |lines| && lines[k] == "---" && fields != map[] && FromFields(fields) == Ok(g)
    ensures Parsed(lines[k..], fields) == Prepend(g, Parsed(lines[k + 1..], map[]))
  {
    StripBaresEnds("---", IsPythonSpace);
    assert lines[k..][0] == "---" && lines[k..][1..] == lines[k + 1..];
  }

  lemma RecordIsRead(lines: seq<string>, g: Gpu)
    requires BeginsWith(lines, g)
    ensures Parsed(lines[0..], map[]) == Prepend(Bare(g), Parsed(lines[8..], map[]))
  {
    NumbersAreLeft(lines, g);
    FieldsAreLeft(lines, g);
    FieldsAreRead(g);
    assert "MONITOR_COUNT" in FieldsOf(g);
    EndOfRecord(lines, 7, FieldsOf(g), Bare(g));
  }

  lemma RecordBegins(g: Gpu)
    ensures |Record(g)| == 8 && BeginsWith(Record(g), g)
  {
  }

  lemma BeginningStays(head: seq<string>, tail: seq<string>, g: Gpu)
    requires |head| == 8 && BeginsWith(head, g)
    ensures BeginsWith(head + tail, g) && (head + tail)[8..] == tail && (head + tail)[0..] == head + tail
  {
  }

  lemma FirstRecordIsRead(head: seq<string>, tail: seq<string>, g: Gpu)
    requires head == Record(g)
    ensures Parsed(head + tail, map[]) == Prepend(Bare(g), Parsed(tail, map[]))
  {
    RecordBegins(g);
    BeginningStays(head, tail, g);
    RecordIsRead(head + tail, g);
  }

  lemma BaredCons(gpus: seq<Gpu>)
    requires gpus != []
    ensures Prepend(Bare(gpus[0]), Ok(Bared(gpus[1..]))) == Ok(Bared(gpus))
  {
    assert Bared(gpus) == [Bare(gpus[0])] + Bared(gpus[1..]);
  }

  lemma {:induction false} RecordsAreRead(gpus: seq<Gpu>)
    ensures Parsed(Records(gpus), map[]) == Ok(Bared(gpus))
  {
    if gpus != [] {
      RecordsAreRead(gpus[1..]);
      FirstRecordIsRead(Record(gpus[0]), Records(gpus[1..]), gpus[0]);
      BaredCons(gpus);
    }
  }

  lemma LineHasNoBreak(key: string, value: string)
    requires IsKey(key) && NoBreak(value)
    ensures NoBreak(Line(key, value))
  {
  }

  lemma NumberHasNoBreak(key: string, n: int)
    requires IsKey(key)
    ensures NoBreak(Line(key, PrintInt(n)))
  {
    LineHasNoBreak(key, PrintInt(n));
  }

  lemma RecordHasNoBreak(g: Gpu)
    requires NoBreak(g.name) && NoBreak(g.slot)
    ensures forall line <- Record(g) :: NoBreak(line)
  {
    TheKeysAreKeys();
    NumberHasNoBreak("GPU_INDEX", g.index);
    NumberHasNoBreak("FREE_BYTES", g.free);
    NumberHasNoBreak("BUDGET_BYTES", g.budget);
    NumberHasNoBreak("USAGE_BYTES", g.usage);
    LineHasNoBreak("DEVICE_NAME", g.name);
    LineHasNoBreak("PCI_SLOT", g.slot);
    NumberHasNoBreak("MONITOR_COUNT", g.monitors);
    forall line <- Record(g) ensures NoBreak(line) {
      var k :| 0 <= k < 8 && Record(g)[k] == line;
      assert line == LineOf(g, k);
    }
  }

  lemma {:induction false} RecordsHaveNoBreak(gpus: seq<Gpu>)
    requires forall g <- gpus :: NoBreak(g.name) && NoBreak(g.slot)
    ensures forall line <- Records(gpus) :: NoBreak(line)
  {
    if gpus != [] {
      RecordHasNoBreak(gpus[0]);
      RecordsHaveNoBreak(gpus[1..]);
    }
  }

  /** Reading what was printed gives every GPU back, up to blanks at the end of its texts. */
  lemma CacheRoundTrip(gpus: seq<Gpu>)
    requires forall g <- gpus :: NoBreak(g.name) && NoBreak(g.slot)
    ensures Parse(Format(gpus)) == Ok(Bared(gpus))
  {
    RecordsHaveNoBreak(gpus);
    SplitTerminated(Records(gpus));
    RecordsAreRead(gpus);
  }

  predicate AllClean(r: Result<seq<Gpu>, RecordError>) {
    r.Ok? ==> forall g <- r.value :: Clean(g)
  }

  lemma ValueIsKept(raw: string, k: nat)
    requires NoBreak(raw) && k < |Strip(raw, IsPythonSpace)|
    ensures Kept(Strip(raw, IsPythonSpace)[k + 1..])
  {
    StripKeepsNoBreak(raw);
    StripBaresEnds(raw, IsPythonSpace);
  }

  lemma PrependClean(g: Gpu, r: Result<seq<Gpu>, RecordError>)
    requires Clean(g) && AllClean(r)
    ensures AllClean(Prepend(g, r))
  {
  }

  predicate AllKept(fields: map<string, string>) {
    forall key <- fields :: Kept(fields[key])
  }

  lemma KeptGrows(fields: map<string, string>, raw: string)
    requires AllKept(fields) && NoBreak(raw)
    ensures var line := Strip(raw, IsPythonSpace);
            var k := EqualsAt(line);
            k < |line| ==> AllKept(fields[line[..k] := line[k + 1..]])
  {
    var line := Strip(raw, IsPythonSpace);
    var k := EqualsAt(line);
    if k < |line| {
      ValueIsKept(raw, k);
    }
  }

  lemma FieldsAreClean(fields: map<string, string>)
    requires AllKept(fields)
    ensures FromFields(fields).Ok? ==> Clean(FromFields(fields).value)
  {
    var name, slot := TextField(fields, "DEVICE_NAME", ""), TextField(fields, "PCI_SLOT", "");
    assert Kept(name) && Kept(slot);
  }

  lemma EndIsClean(lines: seq<string>, fields: map<string, string>)
    requires lines != [] && Strip(lines[0], IsPythonSpace) == "---"
    requires AllKept(fields) && AllClean(Parsed(lines[1..], map[]))
    ensures AllClean(Parsed(lines, fields))
  {
    FieldsAreClean(fields);
    if FromFields(fields).Ok? {
      PrependClean(FromFields(fields).value, Parsed(lines[1..], map[]));
    }
  }

  /** Whatever text is read, the GPUs that come out are clean. */
  lemma {:induction false} ReadIsClean(lines: seq<string>, fields: map<string, string>)
    requires forall line <- lines :: NoBreak(line)
    requires AllKept(fields)
    ensures AllClean(Parsed(lines, fields))
  {
    if lines == [] {
      FieldsAreClean(fields);
    } else {
      var line := Strip(lines[0], IsPythonSpace);
      var k := EqualsAt(line);
      if line == "---" {
        ReadIsClean(lines[1..], map[]);
        EndIsClean(lines, fields);
      } else if k == |line| {
        ReadIsClean(lines[1..], fields);
      } else {
        KeptGrows(fields, lines[0]);
        ReadIsClean(lines[1..], fields[line[..k] := line[k + 1..]]);
      }
    }
  }

  lemma {:induction false} StripKeepsNoBreak(s: string)
    requires NoBreak(s)
    ensures NoBreak(Strip(s, IsPythonSpace))
    decreases |s|
  {
    if s != "" && IsPythonSpace(s[0]) {
      StripKeepsNoBreak(s[1..]);
    } else {
      StripEndIsPrefix(s, IsPythonSpace);
    }
  }

  /** The cache gives the same list back exactly when no name or slot holds a line break or ends in a
      blank. */
  lemma CacheIsExact(gpus: seq<Gpu>)
    ensures Parse(Format(gpus)) == Ok(gpus) <==> forall g <- gpus :: Clean(g)
  {
    if forall g <- gpus :: Clean(g) {
      CacheRoundTrip(gpus);
      assert Bared(gpus) == gpus;
    } else if Parse(Format(gpus)) == Ok(gpus) {
      LinesHaveNoBreak(Format(gpus));
      ReadIsClean(SplitLines(Format(gpus)), map[]);
      assert false;
    }
  }

  // ---------------------------------------------------------------- the choice

  function Headless(gpus: seq<Gpu>): seq<Gpu> {
    if gpus == [] then []
    else
      var last := gpus[|gpus| - 1];
      Headless(gpus[..|gpus| - 1]) + if last.monitors == 0 then [last] else []
  }

  /** Python's `max` by free memory: the first of the largest. */
  function MostFree(pool: seq<Gpu>): Gpu
    requires pool != []
  {
    var last := pool[|pool| - 1];
    if |pool| == 1 then last
    else
      var best := MostFree(pool[..|pool| - 1]);
      if last.free > best.free then last else best
  }

  function SelectBestGpu(gpus: seq<Gpu>): Option<Gpu> {
    if gpus == [] then None
    else if Headless(gpus) != [] then Some(MostFree(Headless(gpus)))
    else Some(MostFree(gpus))
  }

  /** Headless GPUs, or all of them when none is. */
  predicate Eligible(gpus: seq<Gpu>, i: nat) {
    i < |gpus| && (gpus[i].monitors == 0 || forall g <- gpus :: g.monitors != 0)
  }

  /** The first eligible GPU with the most free memory. */
  predicate IsBest(gpus: seq<Gpu>, i: nat) {
    && Eligible(gpus, i)
    && forall j :: 0 <= j < |gpus| && Eligible(gpus, j) ==>
                     gpus[j].free <= gpus[i].free && (j < i ==> gpus[j].free < gpus[i].free)
  }

  lemma {:induction false} MostFreeIsFirst(pool: seq<Gpu>) returns (i: nat)
    requires pool != []
    ensures i < |pool| && MostFree(pool) == pool[i]
    ensures forall j :: 0 <= j < |pool| ==>
                          pool[j].free <= pool[i].free && (j < i ==> pool[j].free < pool[i].free)
  {
    var n := |pool| - 1;
    i := n;
    if n > 0 {
      var k := MostFreeIsFirst(pool[..n]);
      if pool[n].free <= pool[k].free {
        i := k;
      }
    }
  }

  /** The first headless GPU with the most free memory. */
  predicate IsBestHeadless(gpus: seq<Gpu>, i: nat) {
    && i < |gpus| && gpus[i].monitors == 0
    && forall j :: 0 <= j < |gpus| && gpus[j].monitors == 0 ==>
                     gpus[j].free <= gpus[i].free && (j < i ==> gpus[j].free < gpus[i].free)
  }

  lemma {:induction false} HeadlessBest(gpus: seq<Gpu>) returns (i: nat)
    ensures Headless(gpus) == [] ==> forall g <- gpus :: g.monitors != 0
    ensures Headless(gpus) != [] ==> IsBestHeadless(gpus, i) && MostFree(Headless(gpus)) == gpus[i]
  {
    i := 0;
    if gpus != [] {
      var n := |gpus| - 1;
      var init, last := gpus[..n], gpus[n];
      assert gpus == init + [last];
      i := HeadlessBest(init);
      if last.monitors == 0 {
        HeadlessGrows(init, last);
        if Headless(init) == [] || last.free > init[i].free {
          i := n;
        }
      } else {
        assert Headless(gpus) == Headless(init);
      }
    }
  }

  lemma HeadlessGrows(init: seq<Gpu>, last: Gpu)
    requires last.monitors == 0
    ensures Headless(init + [last]) == Headless(init) + [last]
    ensures MostFree(Headless(init + [last]))
            == if Headless(init) == [] || last.free > MostFree(Headless(init)).free then last
               else MostFree(Headless(init))
  {
    var all := init + [last];
    assert all[..|all| - 1] == init;
    var pool := Headless(init) + [last];
    assert pool[..|pool| - 1] == Headless(init);
  }

  /** The choice is the first eligible GPU with the most free memory, and there is only one such. */
  lemma ChoiceIsBest(gpus: seq<Gpu>) returns (i: nat)
    ensures SelectBestGpu(gpus).None? <==> gpus == []
    ensures gpus != [] ==> IsBest(gpus, i) && SelectBestGpu(gpus) == Some(gpus[i])
    ensures forall j: nat :: gpus != [] && IsBest(gpus, j) ==> j == i
  {
    i := 0;
    if gpus != [] {
      i := HeadlessBest(gpus);
      if Headless(gpus) == [] {
        i := MostFreeIsFirst(gpus);
      }
    }
  }

  /** The choice looks only at what the cache keeps exactly: whatever blanks the texts end in, the GPU
      chosen from the cache is the one chosen from the probe. */
  lemma ChoiceSurvivesTheCache(gpus: seq<Gpu>)
    requires forall g <- gpus :: NoBreak(g.name) && NoBreak(g.slot)
    ensures Parse(Format(gpus)).Ok?
    ensures var fromCache := SelectBestGpu(Parse(Format(gpus)).value);
            && (fromCache.None? <==> gpus == [])
            && (fromCache.Some? ==>
                  exists i :: 0 <= i < |gpus| && IsBest(gpus, i)
                              && SelectBestGpu(gpus) == Some(gpus[i])
                              && fromCache == Some(Bared(gpus)[i]))
  {
    CacheRoundTrip(gpus);
    var read := Bared(gpus);
    if gpus != [] {
      var i := ChoiceIsBest(gpus);
      var j := ChoiceIsBest(read);
      SameEligible(gpus, read);
      assert IsBest(gpus, j);
    }
  }

  lemma SameEligible(gpus: seq<Gpu>, read: seq<Gpu>)
    requires |read| == |gpus|
    requires forall i :: 0 <= i < |gpus| ==> read[i].monitors == gpus[i].monitors && read[i].free == gpus[i].free
    ensures forall k: nat :: Eligible(gpus, k) <==> Eligible(read, k)
    ensures forall k: nat :: IsBest(gpus, k) <==> IsBest(read, k)
  {
    if forall g <- gpus :: g.monitors != 0 {
      forall g <- read ensures g.monitors != 0 {
        var i :| 0 <= i < |read| && read[i] == g;
        assert gpus[i] in gpus;
      }
    } else {
      var g :| g in gpus && g.monitors == 0;
      var i :| 0 <= i < |gpus| && gpus[i] == g;
      assert read[i] in read;
    }
  }

  // ---------------------------------------------------------------- records as others may write them

  /** A line feed after a carriage return ends one line, not two. */
  lemma CarriageReturns(line: string, rest: string)
    requires NoBreak(line)
    ensures SplitLines(line + "\r\n" + rest) == [line] + SplitLines(rest)
  {
    var s, k := line + "\r\n" + rest, |line|;
    assert s[k] == '\r' && IsBreak(s[k]) && s[k + 1] == '\n';
    assert BreakAt(s) == k by {
      forall i | 0 <= i < k ensures !IsBreak(s[i]) {
        assert s[i] == line[i] && line[i] in line;
      }
    }
    assert s[..k] == line;
    assert s[k + 2..] == rest;
  }

  /** Every line break is stripped as a blank; the blanks that do not break lines are the unit separator and
      the spaces. */
  lemma BreaksAreBlanks(c: char)
    ensures IsBreak(c) ==> IsPythonSpace(c)
    ensures c < '\U{80}' ==> (IsPythonSpace(c) && !IsBreak(c) <==> c in {'\t', '\U{1F}', ' '})
    ensures c >= '\U{80}' ==> (IsBreak(c) <==> c in {'\U{85}', '\U{2028}', '\U{2029}'})
  {
  }

  /** Digits may be grouped by single underscores, and by nothing else. */
  lemma UnderscoresGroupDigits(n: nat, d: nat)
    requires d < 10
    ensures ParseNat(PrintNat(n) + "_" + [Digit(d)]) == Some(10 * n + d)
    ensures ParseNat(PrintNat(n) + "_") == None
    ensures ParseNat(PrintNat(n) + "_" + "_" + [Digit(d)]) == None
  {
    var digits, last := PrintNat(n), [Digit(d)];
    NatRoundTrip(n);
    assert digits[|digits| - 1] in digits;
    var grouped := digits + "_" + last;
    assert grouped[..|grouped| - 2] == digits && grouped[|grouped| - 2] == '_';
    var doubled := digits + "_" + "_" + last;
    assert doubled[..|doubled| - 2] == digits + "_" && doubled[|doubled| - 2] == '_';
  }

  /** An integer may carry a plus sign and outer blanks. */
  lemma SignsAreRead(n: nat)
    ensures ParseInt("+" + PrintNat(n)) == Some(n) && ParseInt("+" + PrintNat(n) + " ") == Some(n)
  {
    NatRoundTrip(n);
    PlusIsRead(PrintNat(n), n);
  }

  lemma PlusIsRead(digits: string, n: nat)
    requires digits != "" && (forall c <- digits :: '0' <= c <= '9') && ParseNat(digits) == Some(n)
    ensures ParseInt("+" + digits) == Some(n) && ParseInt("+" + digits + " ") == Some(n)
  {
    var s := "+" + digits;
    assert digits[|digits| - 1] in digits;
    assert s[|s| - 1] == digits[|digits| - 1] && s[1..] == digits;
    StripBaresEnds(s, IsPythonSpace);
    assert (s + " ")[..|s|] == s;
    assert StripStart(s + " ", IsPythonSpace) == s + " ";
    assert StripEnd(s + " ", IsPythonSpace) == StripEnd(s, IsPythonSpace);
  }

  /** The four numbers are required, in this order; names are empty and monitors zero where they are
      missing. */
  lemma FieldsAreRequired(fields: map<string, string>)
    ensures FromFields(fields).Ok? <==>
            && (forall key <- {"GPU_INDEX", "FREE_BYTES", "BUDGET_BYTES", "USAGE_BYTES"} ::
                  key in fields && ParseInt(fields[key]).Some?)
            && ("MONITOR_COUNT" in fields ==> ParseInt(fields["MONITOR_COUNT"]).Some?)
    ensures "GPU_INDEX" !in fields ==> FromFields(fields) == Err(MissingKey("GPU_INDEX"))
    ensures FromFields(fields).Ok? ==>
              var g := FromFields(fields).value;
              && g.name == (if "DEVICE_NAME" in fields then fields["DEVICE_NAME"] else "")
              && g.slot == (if "PCI_SLOT" in fields then fields["PCI_SLOT"] else "")
              && ("MONITOR_COUNT" !in fields ==> g.monitors == 0)
              && Some(g.index) == ParseInt(fields["GPU_INDEX"]) && Some(g.free) == ParseInt(fields["FREE_BYTES"])
              && Some(g.budget) == ParseInt(fields["BUDGET_BYTES"])
              && Some(g.usage) == ParseInt(fields["USAGE_BYTES"])
  {
    IntRoundTrip(0);
    assert PrintInt(0) == "0";
  }
}
