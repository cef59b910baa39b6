/** Instruction dependency records as text (util/decode_inst_dep_trace.py prints them,
util/encode_inst_dep_trace.py parses them).

A line is `seq_num,pc,weight,type,[p_addr,size,flags,]comp_delay:rob_deps:reg_deps`, where
each dependency is preceded by a comma.
 */
module DepTrace {
  import opened Results
  import opened Text

  type U32 = n: nat | n < 0x1_0000_0000
  type U64 = n: nat | n < 0x1_0000_0000_0000_0000

  datatype RecordType = INVALID | LOAD | STORE | COMP

  /** An InstDepRecord message; `None` is a field that is not present. */
  datatype Record = Record(
    seqNum: U64, pc: Option<U64>, weight: Option<U32>, kind: RecordType,
    pAddr: Option<U64>, size: Option<U32>, flags: Option<U32>,
    compDelay: U64, robDep: seq<U64>, regDep: seq<U64>)

  // ---- Printing ----

  function TypeName(t: RecordType): (s: string)
    ensures s != ""
  {
    match t
    case INVALID => "INVALID"
    case LOAD => "LOAD"
    case STORE => "STORE"
    case COMP => "COMP"
  }

  function Optional(v: Option<nat>): seq<string> {
    match v
    case Some(n) => [Str(n)]
    case None => []
  }

  function GetOr(v: Option<nat>, default: nat): nat {
    match v
    case Some(n) => n
    case None => default
  }

  /** The comma-separated fields before the first colon. */
  function Fields(r: Record): seq<string> {
    [Str(r.seqNum), Str(GetOr(r.pc, 0)), Str(GetOr(r.weight, 1)), TypeName(r.kind)]
    + Optional(r.pAddr) + Optional(r.size) + Optional(r.flags) + [Str(r.compDelay)]
  }

  function Deps(ds: seq<U64>): string {
    if ds == [] then "" else "," + Str(ds[0]) + Deps(ds[1..])
  }

  function Line(r: Record): string {
    Join(Fields(r), ',') + ":" + (Deps(r.robDep) + ":" + Deps(r.regDep)) + "\n"
  }

  lemma {:induction false} DepsSnoc(ds: seq<U64>, d: U64)
    ensures Deps(ds + [d]) == Deps(ds) + "," + Str(d)
  {
    if ds == [] {
      assert [d][1..] == [];
    } else {
      assert (ds + [d])[1..] == ds[1..] + [d];
      DepsSnoc(ds[1..], d);
    }
  }

  method WriteDeps(out: string, ds: seq<U64>) returns (more: string)
    ensures more == out + Deps(ds)
  {
    more := out;
    for k := 0 to |ds|
      invariant more == out + Deps(ds[..k])
    {
      DepsSnoc(ds[..k], ds[k]);
      assert ds[..k + 1] == ds[..k] + [ds[k]];
      more := more + "," + Str(ds[k]);
    }
    assert ds[..|ds|] == ds;
  }

  function Written(fields: seq<string>): string {
    if fields == [] then "" else Written(fields[..|fields| - 1]) + "," + fields[|fields| - 1]
  }

  lemma FirstAndLast(first: string, fields: seq<string>, init: seq<string>, last: string)
    requires fields != [] && init == fields[..|fields| - 1] && last == fields[|fields| - 1]
    ensures [first] + fields == ([first] + init) + [last]
  {
  }

  lemma MoveFirst(first: string, init: string, last: string)
    ensures first + (init + "," + last) == first + init + [','] + last
  {
  }

  lemma {:induction false} WrittenIsJoined(first: string, fields: seq<string>)
    ensures first + Written(fields) == Join([first] + fields, ',')
  {
    if fields == [] {
    } else {
      var init, last := fields[..|fields| - 1], fields[|fields| - 1];
      FirstAndLast(first, fields, init, last);
      WrittenIsJoined(first, init);
      JoinSnoc([first] + init, last, ',');
      MoveFirst(first, Written(init), last);
    }
  }

  lemma {:induction false} JoinSnoc(parts: seq<string>, last: string, sep: char)
    requires parts != []
    ensures Join(parts + [last], sep) == Join(parts, sep) + [sep] + last
  {
    if |parts| > 1 {
      assert (parts + [last])[1..] == parts[1..] + [last];
      JoinSnoc(parts[1..], last, sep);
    } else {
      assert (parts + [last])[1..] == [last];
    }
  }

  lemma WrittenSnoc(done: seq<string>, f: string)
    ensures Written(done + [f]) == Written(done) + "," + f
  {
    assert (done + [f])[..|done|] == done;
  }

  /** A field that is written only if present. */
  method WriteOptional(out: string, v: Option<nat>, ghost first: string, ghost done: seq<string>) returns (more: string)
    requires out == first + Written(done)
    ensures more == first + Written(done + Optional(v))
  {
    more := out;
    if v.Some? {
      WrittenSnoc(done, Str(v.value));
      more := more + "," + Str(v.value);
    } else {
      assert done + [] == done;
    }
  }

  method WriteField(out: string, f: string, ghost first: string, ghost done: seq<string>) returns (more: string)
    requires out == first + Written(done)
    ensures more == first + Written(done + [f])
  {
    WrittenSnoc(done, f);
    more := out + "," + f;
  }

  lemma FieldsInOrder(r: Record)
    ensures Fields(r) == [Str(r.seqNum)] + ([] + [Str(GetOr(r.pc, 0))] + [Str(GetOr(r.weight, 1))] + [TypeName(r.kind)]
      + Optional(r.pAddr) + Optional(r.size) + Optional(r.flags) + [Str(r.compDelay)])
  {
  }

  method PrintRecord(r: Record) returns (line: string)
    ensures line == Line(r)
  {
    ghost var first, done: seq<string> := Str(r.seqNum), [];
    line := Str(r.seqNum);
    line := WriteField(line, if r.pc.Some? then Str(r.pc.value) else "0", first, done);
    done := done + [Str(GetOr(r.pc, 0))];
    line := WriteField(line, if r.weight.Some? then Str(r.weight.value) else "1", first, done);
    done := done + [Str(GetOr(r.weight, 1))];
    line := WriteField(line, TypeName(r.kind), first, done);
    done := done + [TypeName(r.kind)];
    line := WriteOptional(line, r.pAddr, first, done);
    done := done + Optional(r.pAddr);
    line := WriteOptional(line, r.size, first, done);
    done := done + Optional(r.size);
    line := WriteOptional(line, r.flags, first, done);
    done := done + Optional(r.flags);
    line := WriteField(line, Str(r.compDelay), first, done);
    done := done + [Str(r.compDelay)];
    FieldsInOrder(r);
    WrittenIsJoined(first, done);
    line := WriteDeps(line + ":", r.robDep);
    line := WriteDeps(line + ":", r.regDep);
    line := line + "\n";
    Reassociate(Join(Fields(r), ','), Deps(r.robDep), Deps(r.regDep));
  }

  lemma Reassociate(a: string, b: string, c: string)
    ensures a + ":" + b + ":" + c + "\n" == a + ":" + (b + ":" + c) + "\n"
  {
  }

  // ---- Parsing ----

  datatype ParseError =
    | BadLine
    | MissingField
    | BadNumber(text: string)
    | UnsupportedType(name: string)
    | InvalidType

  function TypeOf(name: string): Option<RecordType> {
    if name == "INVALID" then Some(INVALID)
    else if name == "LOAD" then Some(LOAD)
    else if name == "STORE" then Some(STORE)
    else if name == "COMP" then Some(COMP)
    else None
  }

  /** `int(text)` assigned to a field of the message, which checks its range. */
  function Parse64(text: string): Result<U64, ParseError> {
    match ParseNat(text)
    case Some(n) => if n < 0x1_0000_0000_0000_0000 then Ok(n) else Err(BadNumber(text))
    case None => Err(BadNumber(text))
  }

  function Parse32(text: string): Result<U32, ParseError> {
    match ParseNat(text)
    case Some(n) => if n < 0x1_0000_0000 then Ok(n) else Err(BadNumber(text))
    case None => Err(BadNumber(text))
  }

  /** Dependencies, skipping the empty item before the first comma. */
  function ParseDeps(items: seq<string>): Result<seq<U64>, ParseError> {
    if items == [] then Ok([])
    else
      var item := items[|items| - 1];
      match ParseDeps(items[..|items| - 1])
      case Err(e) => Err(e)
      case Ok(ds) =>
        if item == "" then Ok(ds)
        else match Parse64(item)
          case Err(e) => Err(e)
          case Ok(d) => Ok(ds + [d])
  }

  method ReadDeps(items: seq<string>) returns (r: Result<seq<U64>, ParseError>)
    ensures r == ParseDeps(items)
  {
    var ds: seq<U64> := [];
    for k := 0 to |items|
      invariant ParseDeps(items[..k]) == Ok(ds)
    {
      assert items[..k + 1][..k] == items[..k];
      if items[k] != "" {
        var d := Parse64(items[k]);
        if d.Err? {
          FailsLater(items, k + 1);
          return Err(d.error);
        }
        ds := ds + [d.value];
      }
    }
    assert items[..|items|] == items;
    r := Ok(ds);
  }

  lemma {:induction false} FailsLater(items: seq<string>, k: nat)
    requires k <= |items| && ParseDeps(items[..k]).Err?
    ensures ParseDeps(items) == ParseDeps(items[..k])
  {
    if k == |items| {
      assert items[..k] == items;
    } else {
      assert items[..|items| - 1][..k] == items[..k];
      FailsLater(items[..|items| - 1], k);
    }
  }

  function Field(f: seq<string>, k: nat): Result<string, ParseError> {
    if k < |f| then Ok(f[k]) else Err(MissingField)
  }

  function Number64(f: seq<string>, k: nat): Result<U64, ParseError> {
    var text :- Field(f, k);
    Parse64(text)
  }

  function Number32(f: seq<string>, k: nat): Result<U32, ParseError> {
    var text :- Field(f, k);
    Parse32(text)
  }

  /** Everything before the first colon.  Loads and stores unpack exactly four more
      fields; any other record takes only the next one. */
  function ParseInfo(f: seq<string>): Result<Record, ParseError> {
    var seqNum :- Number64(f, 0);
    var pc :- Number64(f, 1);
    var weight :- Number32(f, 2);
    var name :- Field(f, 3);
    match TypeOf(name)
    case None => Err(UnsupportedType(name))
    case Some(kind) =>
      if kind == INVALID then Err(InvalidType)
      else if kind == COMP then
        var compDelay :- Number64(f, 4);
        Ok(Record(seqNum, Some(pc), Some(weight), kind, None, None, None, compDelay, [], []))
      else if |f| < 8 then Err(MissingField)
      else
        var pAddr :- Number64(f, 4);
        var size :- Number32(f, 5);
        var flags :- Number32(f, 6);
        var compDelay :- Number64(f, 7);
        Ok(Record(seqNum, Some(pc), Some(weight), kind, Some(pAddr), Some(size), Some(flags), compDelay, [], []))
  }

  function Parse(line: string): Result<Record, ParseError> {
    var parts := Split(Strip(line), ':');
    if |parts| != 3 then Err(BadLine)
    else
      var info :- ParseInfo(Split(parts[0], ','));
      var robDep :- ParseDeps(Split(Strip(parts[1]), ','));
      var regDep :- ParseDeps(Split(parts[2], ','));
      Ok(info.(robDep := robDep, regDep := regDep))
  }

  /** The body of the encoder's loop over lines. */
  method ParseLine(line: string) returns (r: Result<Record, ParseError>)
    ensures r == Parse(line)
  {
    var parts := Split(Strip(line), ':');
    if |parts| != 3 {
      return Err(BadLine);
    }
    var info :- ParseInfo(Split(parts[0], ','));
    var robDep :- ReadDeps(Split(Strip(parts[1]), ','));
    var regDep :- ReadDeps(Split(parts[2], ','));
    r := Ok(info.(robDep := robDep, regDep := regDep));
  }

  // ---- Printing and parsing back ----

  /** Absent pc and weight read back as their defaults. */
  function Normalised(r: Record): Record {
    r.(pc := Some(GetOr(r.pc, 0)), weight := Some(GetOr(r.weight, 1)))
  }

  /** The records the text format can carry. */
  predicate Expressible(r: Record) {
    match r.kind
    case INVALID => false
    case COMP => r.pAddr.None? && r.size.None? && r.flags.None?
    case _ => r.pAddr.Some? && r.size.Some? && r.flags.Some?
  }

  function Strs(ds: seq<U64>): seq<string> {
    seq(|ds|, (k: nat) requires k < |ds| => Str(ds[k]))
  }

  lemma DigitsFree(n: nat, c: char)
    requires !IsDigit(c)
    ensures c !in Str(n)
  {
  }

  lemma {:induction false} SplitDeps(first: string, ds: seq<U64>)
    requires ',' !in first
    ensures Split(first + Deps(ds), ',') == [first] + Strs(ds)
    decreases |ds|
  {
    if ds == [] {
      assert first + "" == first;
      SplitNone(first, ',');
    } else {
      var rest := Str(ds[0]) + Deps(ds[1..]);
      CommaThen(first, Deps(ds), rest);
      SplitAt(first, rest, ',');
      DigitsFree(ds[0], ',');
      SplitDeps(Str(ds[0]), ds[1..]);
      assert Strs(ds) == [Str(ds[0])] + Strs(ds[1..]);
    }
  }

  lemma CommaThen(first: string, s: string, rest: string)
    requires s == "," + rest
    ensures first + s == first + [','] + rest
  {
  }

  lemma {:induction false} ParseStrs(ds: seq<U64>)
    ensures ParseDeps([""] + Strs(ds)) == Ok(ds)
  {
    var items := [""] + Strs(ds);
    if ds == [] {
      assert items == [""] && items[..0] == [];
    } else {
      var n := |ds| - 1;
      ParseStrs(ds[..n]);
      assert items[..|items| - 1] == [""] + Strs(ds[..n]);
      ParseStr(ds[n]);
      assert ds == ds[..n] + [ds[n]];
    }
  }

  lemma DepsRoundTrip(ds: seq<U64>)
    ensures ParseDeps(Split(Deps(ds), ',')) == Ok(ds)
  {
    assert "" + Deps(ds) == Deps(ds);
    SplitDeps("", ds);
    ParseStrs(ds);
  }

  /** A separator or white space. */
  predicate IsMark(c: char) {
    c == ',' || c == ':' || IsSpace(c)
  }

  lemma NameFree(t: RecordType, c: char)
    requires IsMark(c)
    ensures c !in TypeName(t)
  {
  }

  lemma MarkIsNoDigit(c: char)
    requires IsMark(c)
    ensures !IsDigit(c)
  {
  }

  /** Every field but the type is a number. */
  lemma FieldsAreNumbers(r: Record, k: nat)
    requires k < |Fields(r)|
    ensures if k == 3 then Fields(r)[k] == TypeName(r.kind) else AllDigits(Fields(r)[k])
  {
  }

  lemma FieldsFree(r: Record, c: char)
    requires IsMark(c)
    ensures forall f <- Fields(r) :: c !in f
  {
    MarkIsNoDigit(c);
    NameFree(r.kind, c);
    forall k | 0 <= k < |Fields(r)| ensures c !in Fields(r)[k] {
      FieldsAreNumbers(r, k);
    }
  }

  lemma {:induction false} JoinFree(parts: seq<string>, sep: char, c: char)
    requires c != sep && forall p <- parts :: c !in p
    ensures c !in Join(parts, sep)
  {
    if |parts| > 1 {
      JoinFree(parts[1..], sep, c);
    }
  }

  lemma {:induction false} DepsFree(ds: seq<U64>, c: char)
    requires IsMark(c) && c != ','
    ensures c !in Deps(ds)
  {
    if ds == [] {
    } else {
      DepsFree(ds[1..], c);
    }
  }

  // ---- The line splits into the parts it was made of ----

  lemma StripNewline(s: string)
    requires forall c <- s :: !IsSpace(c)
    ensures Strip(s + "\n") == s
  {
    StripFree(s);
    if s == "" {
      assert s + "\n" == "\n" && "\n"[1..] == "";
    } else {
      assert s[0] in s;
      assert (s + "\n")[..|s|] == s;
    }
  }

  function Body(r: Record): string {
    Join(Fields(r), ',') + ":" + (Deps(r.robDep) + ":" + Deps(r.regDep))
  }

  lemma BodyHasNoSpace(r: Record)
    ensures forall c <- Body(r) :: !IsSpace(c)
  {
    forall c | IsSpace(c) ensures c !in Body(r) {
      FieldsFree(r, c);
      JoinFree(Fields(r), ',', c);
      DepsFree(r.robDep, c);
      DepsFree(r.regDep, c);
    }
  }

  lemma LineParts(r: Record)
    ensures Split(Strip(Line(r)), ':') == [Join(Fields(r), ','), Deps(r.robDep), Deps(r.regDep)]
  {
    BodyHasNoSpace(r);
    StripNewline(Body(r));
    FieldsFree(r, ':');
    JoinFree(Fields(r), ',', ':');
    DepsFree(r.robDep, ':');
    DepsFree(r.regDep, ':');
    SplitAt(Join(Fields(r), ','), Deps(r.robDep) + ":" + Deps(r.regDep), ':');
    SplitAt(Deps(r.robDep), Deps(r.regDep), ':');
    SplitNone(Deps(r.regDep), ':');
  }

  lemma DepsStrip(ds: seq<U64>)
    ensures Strip(Deps(ds)) == Deps(ds)
  {
    forall c | IsSpace(c) ensures c !in Deps(ds) {
      DepsFree(ds, c);
    }
    StripFree(Deps(ds));
  }

  /** What the parser makes of a printed line depends only on its fields. */
  lemma ParsePrinted(r: Record)
    ensures Parse(Line(r)) == match ParseInfo(Fields(r))
                              case Err(e) => Err(e)
                              case Ok(info) => Ok(info.(robDep := r.robDep, regDep := r.regDep))
  {
    LineParts(r);
    FieldsFree(r, ',');
    SplitJoin(Fields(r), ',');
    DepsStrip(r.robDep);
    DepsRoundTrip(r.robDep);
    DepsRoundTrip(r.regDep);
  }

  lemma ParseNumbers(n: U64, m: U32)
    ensures Parse64(Str(n)) == Ok(n) && Parse32(Str(m)) == Ok(m)
  {
    ParseStr(n);
    ParseStr(m);
  }

  lemma TypeNames(t: RecordType)
    ensures TypeOf(TypeName(t)) == Some(t)
  {
  }

  lemma CommonFields(r: Record)
    ensures
      var f := Fields(r);
      && |f| >= 5
      && Number64(f, 0) == Ok(r.seqNum)
      && Number64(f, 1) == Ok(GetOr(r.pc, 0))
      && Number32(f, 2) == Ok(GetOr(r.weight, 1))
      && Field(f, 3) == Ok(TypeName(r.kind))
  {
    ParseNumbers(r.seqNum, GetOr(r.weight, 1));
    ParseNumbers(GetOr(r.pc, 0), 0);
  }

  lemma MemoryFields(r: Record)
    requires r.pAddr.Some? && r.size.Some? && r.flags.Some?
    ensures
      var f := Fields(r);
      && |f| == 8
      && Number64(f, 4) == Ok(r.pAddr.value)
      && Number32(f, 5) == Ok(r.size.value)
      && Number32(f, 6) == Ok(r.flags.value)
      && Number64(f, 7) == Ok(r.compDelay)
  {
    ParseNumbers(r.pAddr.value, r.size.value);
    ParseNumbers(r.compDelay, r.flags.value);
  }

  lemma ParseFields(r: Record)
    ensures ParseInfo(Fields(r)) == Ok(Normalised(r).(robDep := [], regDep := [])) <==> Expressible(r)
  {
    CommonFields(r);
    TypeNames(r.kind);
    if r.pAddr.Some? && r.size.Some? && r.flags.Some? {
      MemoryFields(r);
    } else if r.pAddr.None? && r.size.None? && r.flags.None? {
      ParseNumbers(r.compDelay, 0);
      assert Fields(r)[4] == Str(r.compDelay);
    }
  }

  lemma InfoHasNoDeps(f: seq<string>)
    ensures ParseInfo(f).Ok? ==> ParseInfo(f).value.robDep == [] && ParseInfo(f).value.regDep == []
  {
  }

  lemma WithDepsExactly(info: Result<Record, ParseError>, r: Record)
    requires info.Ok? ==> info.value.robDep == [] && info.value.regDep == []
    ensures (match info case Err(e) => Err(e) case Ok(i) => Ok(i.(robDep := r.robDep, regDep := r.regDep)))
            == Ok(Normalised(r))
       <==> info == Ok(Normalised(r).(robDep := [], regDep := []))
  {
  }

  /** Printing a record and parsing the line gives the record back, with the defaults of
      pc and weight filled in, if and only if it has a valid type and its memory fields
      are present exactly when it is a load or a store. */
  lemma RoundTripExactly(r: Record)
    ensures Parse(Line(r)) == Ok(Normalised(r)) <==> Expressible(r)
  {
    ParsePrinted(r);
    ParseFields(r);
    InfoHasNoDeps(Fields(r));
    WithDepsExactly(ParseInfo(Fields(r)), r);
  }

  lemma JoinFive(a: string, b: string, c: string, d: string, e: string)
    ensures Join([a, b, c, d, e], ',') == a + "," + b + "," + c + "," + d + "," + e
  {
    assert [a, b, c, d, e][1..] == [b, c, d, e] && [b, c, d, e][1..] == [c, d, e];
    assert [c, d, e][1..] == [d, e] && [d, e][1..] == [e];
    assert Join([d, e], ',') == d + "," + e;
    assert Join([c, d, e], ',') == c + "," + d + "," + e;
    assert Join([b, c, d, e], ',') == b + "," + c + "," + d + "," + e;
  }

  /** A record without memory fields, as it is spelled. */
  lemma ComputationSpelled(r: Record)
    requires r.pAddr.None? && r.size.None? && r.flags.None?
    ensures Line(r)
         == Str(r.seqNum) + "," + Str(if r.pc.Some? then r.pc.value else 0)
            + "," + Str(if r.weight.Some? then r.weight.value else 1)
            + "," + (match r.kind
                     case INVALID => "INVALID" case LOAD => "LOAD" case STORE => "STORE" case COMP => "COMP")
            + "," + Str(r.compDelay) + ":" + Deps(r.robDep) + ":" + Deps(r.regDep) + "\n"
  {
    var f := Fields(r);
    assert f == [f[0], f[1], f[2], f[3], f[4]];
    JoinFive(f[0], f[1], f[2], f[3], f[4]);
    Reassociate(Join(f, ','), Deps(r.robDep), Deps(r.regDep));
  }

  /** A record with all memory fields: they stand between the type and the delay. */
  lemma MemorySpelled(r: Record)
    requires r.pAddr.Some? && r.size.Some? && r.flags.Some?
    ensures Line(r)
         == Str(r.seqNum) + "," + Str(if r.pc.Some? then r.pc.value else 0)
            + "," + Str(if r.weight.Some? then r.weight.value else 1)
            + "," + (match r.kind
                     case INVALID => "INVALID" case LOAD => "LOAD" case STORE => "STORE" case COMP => "COMP")
            + "," + (Str(r.pAddr.value) + "," + Str(r.size.value) + "," + Str(r.flags.value) + "," + Str(r.compDelay))
            + ":" + Deps(r.robDep) + ":" + Deps(r.regDep) + "\n"
  {
    var f := Fields(r);
    var last := f[4] + "," + f[5] + "," + f[6] + "," + f[7];
    assert f == [f[0], f[1], f[2], f[3], f[4], f[5], f[6], f[7]];
    JoinEight(f[0], f[1], f[2], f[3], f[4], f[5], f[6], f[7]);
    Reassociate(Join(f, ','), Deps(r.robDep), Deps(r.regDep));
  }

  lemma JoinEight(a: string, b: string, c: string, d: string, e: string, f: string, g: string, h: string)
    ensures Join([a, b, c, d, e, f, g, h], ',')
         == a + "," + b + "," + c + "," + d + "," + (e + "," + f + "," + g + "," + h)
  {
    assert [a, b, c, d, e, f, g, h][1..] == [b, c, d, e, f, g, h] && [b, c, d, e, f, g, h][1..] == [c, d, e, f, g, h];
    assert [c, d, e, f, g, h][1..] == [d, e, f, g, h];
    JoinFive(d, e, f, g, h);
    assert Join([c, d, e, f, g, h], ',') == c + "," + Join([d, e, f, g, h], ',');
    assert Join([b, c, d, e, f, g, h], ',') == b + "," + Join([c, d, e, f, g, h], ',');
  }

  // ---- What the parser puts up with ----

  /** Fields after the last one that is needed are ignored. */
  lemma ExtraFieldsIgnored(f: seq<string>, more: seq<string>)
    requires ParseInfo(f).Ok?
    ensures ParseInfo(f + more) == ParseInfo(f)
  {
    assert forall k :: 0 <= k < |f| ==> Field(f + more, k) == Field(f, k);
  }

  /** Empty items among the dependencies are ignored, wherever they stand. */
  lemma {:induction false} EmptyItemsIgnored(a: seq<string>, b: seq<string>)
    ensures ParseDeps(a + [""] + b) == ParseDeps(a + b)
  {
    if b == [] {
      assert (a + [""])[..|a|] == a && a + [""] + [] == a + [""] && a + [] == a;
    } else {
      var n := |b| - 1;
      EmptyItemsIgnored(a, b[..n]);
      var x, y := a + [""] + b, a + b;
      assert x[..|x| - 1] == a + [""] + b[..n] && y[..|y| - 1] == a + b[..n];
    }
  }

  lemma {:induction false} PartsCount(s: string, sep: char)
    ensures |Split(s, sep)| == 1 + multiset(s)[sep]
  {
    if s == "" {
    } else {
      PartsCount(s[1..], sep);
      assert s == [s[0]] + s[1..];
      assert multiset(s) == multiset([s[0]]) + multiset(s[1..]);
    }
  }

  lemma {:induction false} DepsNotBad(items: seq<string>)
    ensures ParseDeps(items) != Err(BadLine)
  {
    if items == [] {
    } else {
      DepsNotBad(items[..|items| - 1]);
    }
  }

  lemma InfoNotBad(f: seq<string>)
    ensures ParseInfo(f) != Err(BadLine)
  {
  }

  /** A line is refused for its form exactly when it does not have two colons. */
  lemma TwoColons(line: string)
    ensures Parse(line) == Err(BadLine) <==> multiset(Strip(line))[':'] != 2
  {
    PartsCount(Strip(line), ':');
    var parts := Split(Strip(line), ':');
    if |parts| == 3 {
      InfoNotBad(Split(parts[0], ','));
      DepsNotBad(Split(Strip(parts[1]), ','));
      DepsNotBad(Split(parts[2], ','));
    }
  }

  // ---- Whole traces ----

  function LineOfEach(rs: seq<Record>): (ls: seq<string>)
    ensures |ls| == |rs|
  {
    if rs == [] then [] else LineOfEach(rs[..|rs| - 1]) + [Line(rs[|rs| - 1])]
  }

  function PrintAll(rs: seq<Record>): string {
    Concat(LineOfEach(rs))
  }

  /** The lines of a text file, each with its newline; the last one may lack it. */
  function Lines(text: string): seq<string> {
    if text == "" then []
    else
      var n := FirstLine(text);
      [text[..n]] + Lines(text[n..])
  }

  function FirstLine(text: string): (n: nat)
    requires text != ""
    ensures 0 < n <= |text|
  {
    if text[0] == '\n' || |text| == 1 then 1 else 1 + FirstLine(text[1..])
  }

  /** The encoder's loop: it gives up at the first line it cannot read. */
  function ParseAll(lines: seq<string>): Result<seq<Record>, ParseError> {
    if lines == [] then Ok([])
    else
      var rs :- ParseAll(lines[..|lines| - 1]);
      var r :- Parse(lines[|lines| - 1]);
      Ok(rs + [r])
  }

  function NormaliseAll(rs: seq<Record>): seq<Record> {
    if rs == [] then [] else NormaliseAll(rs[..|rs| - 1]) + [Normalised(rs[|rs| - 1])]
  }

  predicate AllExpressible(rs: seq<Record>) {
    rs == [] || (AllExpressible(rs[..|rs| - 1]) && Expressible(rs[|rs| - 1]))
  }

  // ---- A file of complete lines is cut into those lines ----

  predicate IsLine(l: string) {
    l != "" && l[|l| - 1] == '\n' && '\n' !in l[..|l| - 1]
  }

  lemma {:induction false} FirstLineOf(l: string, rest: string)
    requires IsLine(l)
    ensures FirstLine(l + rest) == |l|
  {
    if |l| > 1 {
      assert (l + rest)[1..] == l[1..] + rest;
      assert l[0] == l[..|l| - 1][0];
      FirstLineOf(l[1..], rest);
    }
  }

  lemma {:induction false} LinesOfConcat(ls: seq<string>)
    requires forall l <- ls :: IsLine(l)
    ensures Lines(Concat(ls)) == ls
  {
    if ls == [] {
    } else {
      var l, text := ls[0], Concat(ls);
      FirstLineOf(l, Concat(ls[1..]));
      assert text[..|l|] == l && text[|l|..] == Concat(ls[1..]);
      LinesOfConcat(ls[1..]);
    }
  }

  lemma PrintedIsLine(r: Record)
    ensures IsLine(Line(r))
  {
    BodyHasNoSpace(r);
    assert Line(r)[..|Body(r)|] == Body(r);
  }

  lemma {:induction false} PrintedAreLines(rs: seq<Record>)
    ensures forall l <- LineOfEach(rs) :: IsLine(l)
  {
    if rs == [] {
    } else {
      PrintedAreLines(rs[..|rs| - 1]);
      PrintedIsLine(rs[|rs| - 1]);
    }
  }

  lemma ParseAllSnoc(lines: seq<string>, l: string)
    ensures ParseAll(lines + [l]) == match ParseAll(lines)
      case Err(e) => Err(e)
      case Ok(rs) => match Parse(l) case Err(e) => Err(e) case Ok(r) => Ok(rs + [r])
  {
    assert (lines + [l])[..|lines|] == lines;
  }

  /** The last record and the ones before are compared separately. */
  lemma LastAndInit(a: seq<Record>, x: Record, b: seq<Record>, y: Record)
    ensures a + [x] == b + [y] <==> a == b && x == y
  {
    if a + [x] == b + [y] {
      assert a == (a + [x])[..|a|] && b == (b + [y])[..|b|];
      assert (a + [x])[|a|] == (b + [y])[|b|];
    }
  }

  lemma ParseLastExactly(lines: seq<string>, l: string, rs: seq<Record>, r: Record)
    ensures ParseAll(lines + [l]) == Ok(rs + [r]) <==> ParseAll(lines) == Ok(rs) && Parse(l) == Ok(r)
  {
    ParseAllSnoc(lines, l);
    var p, q := ParseAll(lines), Parse(l);
    if p.Ok? && q.Ok? {
      LastAndInit(p.value, q.value, rs, r);
    }
  }

  lemma {:induction false} ParseLinesExactly(rs: seq<Record>)
    ensures ParseAll(LineOfEach(rs)) == Ok(NormaliseAll(rs)) <==> AllExpressible(rs)
  {
    if rs == [] {
    } else {
      var init, r := rs[..|rs| - 1], rs[|rs| - 1];
      ParseLinesExactly(init);
      RoundTripExactly(r);
      ParseLastExactly(LineOfEach(init), Line(r), NormaliseAll(init), Normalised(r));
    }
  }

  /** Printing a whole trace and reading it line by line gives the records back if and
      only if each of them is expressible. */
  lemma TraceRoundTripExactly(rs: seq<Record>)
    ensures ParseAll(Lines(PrintAll(rs))) == Ok(NormaliseAll(rs)) <==> AllExpressible(rs)
  {
    PrintedAreLines(rs);
    LinesOfConcat(LineOfEach(rs));
    ParseLinesExactly(rs);
  }

  // ---- The two loops ----

  /** The decoder's loop over messages. */
  method PrintTrace(rs: seq<Record>) returns (text: string)
    ensures text == PrintAll(rs)
  {
    text := "";
    for k := 0 to |rs|
      invariant text == Concat(LineOfEach(rs[..k]))
    {
      var line := PrintRecord(rs[k]);
      ConcatSnoc(LineOfEach(rs[..k]), line);
      assert rs[..k + 1][..k] == rs[..k];
      text := text + line;
    }
    assert rs[..|rs|] == rs;
  }

  lemma {:induction false} ParseFailsLater(lines: seq<string>, k: nat)
    requires k <= |lines| && ParseAll(lines[..k]).Err?
    ensures ParseAll(lines) == ParseAll(lines[..k])
  {
    if k == |lines| {
      assert lines[..k] == lines;
    } else {
      assert lines[..|lines| - 1][..k] == lines[..k];
      ParseFailsLater(lines[..|lines| - 1], k);
    }
  }

  method ParseNext(lines: seq<string>, k: nat, rs: seq<Record>) returns (r: Result<seq<Record>, ParseError>)
    requires k < |lines| && ParseAll(lines[..k]) == Ok(rs)
    ensures r.Ok? ==> ParseAll(lines[..k + 1]) == r
    ensures r.Err? ==> ParseAll(lines) == r
  {
    ghost var done := lines[..k];
    ParsedNext(lines, k, done);
    var record := ParseLine(lines[k]);
    if record.Err? {
      ParseFailsLater(lines, k + 1);
      return Err(record.error);
    }
    r := Ok(rs + [record.value]);
  }

  lemma ParsedNext(lines: seq<string>, k: nat, done: seq<string>)
    requires k < |lines| && done == lines[..k]
    ensures lines[..k + 1] == done + [lines[k]]
    ensures ParseAll(lines[..k + 1]) == ParseAll(done + [lines[k]])
    ensures ParseAll(done).Ok? ==>
      ParseAll(lines[..k + 1]) == match Parse(lines[k])
        case Ok(record) => Ok(ParseAll(done).value + [record])
        case Err(error) => Err(error)
  {
    assert lines[..k + 1] == done + [lines[k]];
    ParseAllSnoc(done, lines[k]);
  }

  method ParseTrace(lines: seq<string>) returns (r: Result<seq<Record>, ParseError>)
    ensures r == ParseAll(lines)
  {
    var rs: seq<Record> := [];
    for k := 0 to |lines|
      invariant ParseAll(lines[..k]) == Ok(rs)
    {
      var next := ParseNext(lines, k, rs);
      if next.Err? {
        return next;
      }
      rs := next.value;
    }
    assert lines[..|lines|] == lines;
    r := Ok(rs);
  }
}
