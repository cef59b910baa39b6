/** Whole dependency traces: the binary file to text (util/decode_inst_dep_trace.py) and the
text to a binary file (util/encode_inst_dep_trace.py).

A binary file is four magic bytes, a framed header and the framed records.  How a record is
serialized is a parameter.
 */
module TraceFile {
  import opened Results
  import opened Text
  import opened Framing
  import opened DepTrace

  /** The bytes of "gem5". */
  const MAGIC: seq<Byte> := [0x67, 0x65, 0x6D, 0x35]

  /** The data start with the codes of the characters of `text`. */
  predicate StartsWith(data: seq<Byte>, text: string) {
    |data| >= |text| && forall k :: 0 <= k < |text| ==> data[k] == text[k] as int
  }

  lemma MagicIs(data: seq<Byte>)
    ensures Take(data, 0, 4) == MAGIC <==> StartsWith(data, "gem5")
  {
    var m := "gem5";
    assert m[0] as int == 0x67 && m[1] as int == 0x65 && m[2] as int == 0x6D && m[3] as int == 0x35;
    if StartsWith(data, "gem5") {
      assert data[0..4] == MAGIC;
    }
    if Take(data, 0, 4) == MAGIC {
      assert |data| >= 4 && data[0..4] == MAGIC;
      assert forall k :: 0 <= k < 4 ==> data[k] == data[0..4][k];
    }
  }

  type Serialize = Record -> seq<Byte>
  type Deserialize = seq<Byte> -> Option<Record>

  function FileOf(header: seq<Byte>, ms: seq<seq<Byte>>): seq<Byte> {
    MAGIC + Frame(header) + EncodeAll(ms)
  }

  function SerializeAll(ser: Serialize, rs: seq<Record>): (ms: seq<seq<Byte>>)
    ensures |ms| == |rs|
  {
    if rs == [] then [] else SerializeAll(ser, rs[..|rs| - 1]) + [ser(rs[|rs| - 1])]
  }

  function DeserializeAll(des: Deserialize, ms: seq<seq<Byte>>): Option<seq<Record>> {
    if ms == [] then Some([])
    else
      match (DeserializeAll(des, ms[..|ms| - 1]), des(ms[|ms| - 1]))
      case (Some(rs), Some(r)) => Some(rs + [r])
      case _ => None
  }

  datatype DecodeError = UnrecognizedFile | BadMessage

  /** The header is read and its contents ignored, even if there is none. */
  function DecodeFile(des: Deserialize, data: seq<Byte>): Result<string, DecodeError> {
    if Take(data, 0, 4) != MAGIC then Err(UnrecognizedFile)
    else
      match DeserializeAll(des, DecodeAll(data, AfterMessage(data, 4)))
      case None => Err(BadMessage)
      case Some(rs) => Ok(PrintAll(rs))
  }

  function EncodeFile(ser: Serialize, header: seq<Byte>, text: string): Result<seq<Byte>, ParseError> {
    var rs :- ParseAll(Lines(text));
    Ok(FileOf(header, SerializeAll(ser, rs)))
  }

  // ---- The two scripts ----

  lemma SerializeSnoc(ser: Serialize, rs: seq<Record>, r: Record)
    ensures SerializeAll(ser, rs + [r]) == SerializeAll(ser, rs) + [ser(r)]
  {
    assert (rs + [r])[..|rs|] == rs;
  }

  lemma DeserializeSnoc(des: Deserialize, ms: seq<seq<Byte>>, m: seq<Byte>)
    ensures DeserializeAll(des, ms + [m]) == match (DeserializeAll(des, ms), des(m))
      case (Some(rs), Some(r)) => Some(rs + [r])
      case _ => None
  {
    assert (ms + [m])[..|ms|] == ms;
  }

  lemma {:induction false} EncodeSnoc(ms: seq<seq<Byte>>, m: seq<Byte>)
    ensures EncodeAll(ms + [m]) == EncodeAll(ms) + Frame(m)
  {
    if ms == [] {
      assert [m][1..] == [] && EncodeAll([m]) == Frame(m) + [];
    } else {
      assert (ms + [m])[1..] == ms[1..] + [m];
      EncodeSnoc(ms[1..], m);
    }
  }

  lemma PrintSnoc(rs: seq<Record>, r: Record)
    ensures PrintAll(rs + [r]) == PrintAll(rs) + Line(r)
  {
    assert (rs + [r])[..|rs|] == rs;
    ConcatSnoc(LineOfEach(rs), Line(r));
  }

  /** The records `rs` have been read, and what is left to read starts at `pos`. */
  ghost predicate ReadSoFar(des: Deserialize, data: seq<Byte>, start: nat, pos: nat,
                            ms: seq<seq<Byte>>, rs: seq<Record>)
  {
    && start <= |data| && pos <= |data|
    && DecodeAll(data, start) == ms + DecodeAll(data, pos)
    && DeserializeAll(des, ms) == Some(rs)
  }

  lemma {:induction false} DeserializeFails(des: Deserialize, ms: seq<seq<Byte>>, m: seq<Byte>, rest: seq<seq<Byte>>)
    requires des(m).None?
    ensures DeserializeAll(des, ms + [m] + rest).None?
  {
    var all := ms + [m] + rest;
    if rest == [] {
      assert all == ms + [m];
      DeserializeSnoc(des, ms, m);
    } else {
      var n := |rest| - 1;
      DeserializeFails(des, ms, m, rest[..n]);
      assert all == (ms + [m] + rest[..n]) + [rest[n]];
      DeserializeSnoc(des, ms + [m] + rest[..n], rest[n]);
    }
  }

  lemma ReadOne(des: Deserialize, data: seq<Byte>, start: nat, pos: nat, ms: seq<seq<Byte>>, rs: seq<Record>)
    requires ReadSoFar(des, data, start, pos, ms, rs) && DecodeMessage(data, pos).Message?
    ensures
      var m := DecodeMessage(data, pos);
      match des(m.bytes)
      case None => DeserializeAll(des, DecodeAll(data, start)).None?
      case Some(r) => ReadSoFar(des, data, start, m.next, ms + [m.bytes], rs + [r])
  {
    var m := DecodeMessage(data, pos);
    var rest := DecodeAll(data, m.next);
    assert ms + ([m.bytes] + rest) == ms + [m.bytes] + rest;
    DeserializeSnoc(des, ms, m.bytes);
    if des(m.bytes).None? {
      DeserializeFails(des, ms, m.bytes, rest);
    }
  }

  /** The decoder's loop over the records. */
  method PrintRecords(f: File, des: Deserialize) returns (r: Result<string, DecodeError>)
    requires f.Valid()
    modifies f`pos
    ensures r == match DeserializeAll(des, DecodeAll(f.data, old(f.pos)))
                 case None => Err(BadMessage)
                 case Some(rs) => Ok(PrintAll(rs))
  {
    var text := "";
    ghost var start := f.pos;
    ghost var ms: seq<seq<Byte>>, rs: seq<Record> := [], [];
    var m := NoMessage;
    while true
      invariant f.Valid() && ReadSoFar(des, f.data, start, f.pos, ms, rs) && text == PrintAll(rs)
      decreases |f.data| - f.pos
    {
      ghost var pos := f.pos;
      m := ReadMessage(f);
      if m.NoMessage? {
        assert ms + [] == ms;
        return Ok(text);
      }
      ReadOne(des, f.data, start, pos, ms, rs);
      var record := des(m.bytes);
      if record.None? {
        return Err(BadMessage);
      }
      var line := PrintRecord(record.value);
      PrintSnoc(rs, record.value);
      text, ms, rs := text + line, ms + [m.bytes], rs + [record.value];
    }
  }

  /** The whole of the decoder. */
  method DecodeTrace(f: File, des: Deserialize) returns (r: Result<string, DecodeError>)
    requires f.pos == 0
    modifies f`pos
    ensures r == DecodeFile(des, f.data)
    ensures r == Err(UnrecognizedFile) <==> !StartsWith(f.data, "gem5")
  {
    MagicIs(f.data);
    var magic := f.ReadBytes(4);
    if magic != MAGIC {
      return Err(UnrecognizedFile);
    }
    var _ := ReadMessage(f);
    r := PrintRecords(f, des);
  }

  /** The first `k` lines have been read and written as the records `rs`. */
  ghost predicate WrittenSoFar(ser: Serialize, header: seq<Byte>, lines: seq<string>, k: nat, rs: seq<Record>,
                               data: seq<Byte>)
  {
    k <= |lines| && ParseAll(lines[..k]) == Ok(rs) && data == FileOf(header, SerializeAll(ser, rs))
  }

  lemma FileSnoc(header: seq<Byte>, ms: seq<seq<Byte>>, m: seq<Byte>)
    ensures FileOf(header, ms + [m]) == FileOf(header, ms) + Frame(m)
  {
    EncodeSnoc(ms, m);
    Regroup(MAGIC + Frame(header), EncodeAll(ms), Frame(m));
  }

  lemma Regroup(a: seq<Byte>, b: seq<Byte>, c: seq<Byte>)
    ensures a + (b + c) == a + b + c
  {
  }

  lemma WriteOne(ser: Serialize, header: seq<Byte>, lines: seq<string>, k: nat, rs: seq<Record>, r: Record,
                 data: seq<Byte>)
    requires k < |lines| && WrittenSoFar(ser, header, lines, k, rs, data) && Parse(lines[k]) == Ok(r)
    ensures WrittenSoFar(ser, header, lines, k + 1, rs + [r], data + Frame(ser(r)))
  {
    ParsedNext(lines, k, lines[..k]);
    SerializeSnoc(ser, rs, r);
    FileSnoc(header, SerializeAll(ser, rs), ser(r));
  }

  lemma WriteFails(lines: seq<string>, k: nat)
    requires k < |lines| && ParseAll(lines[..k]).Ok? && Parse(lines[k]).Err?
    ensures ParseAll(lines) == Err(Parse(lines[k]).error)
  {
    ParsedNext(lines, k, lines[..k]);
    ParseFailsLater(lines, k + 1);
  }

  /** One line of the encoder's loop. */
  method EncodeLine(out: File, ser: Serialize, ghost header: seq<Byte>, lines: seq<string>, k: nat,
                    ghost rs: seq<Record>)
    returns (r: Result<Record, ParseError>)
    requires k < |lines| && WrittenSoFar(ser, header, lines, k, rs, out.data)
    modifies out`data
    ensures r.Ok? ==> WrittenSoFar(ser, header, lines, k + 1, rs + [r.value], out.data)
    ensures r.Err? ==> ParseAll(lines) == Err(r.error)
  {
    r := ParseLine(lines[k]);
    if r.Err? {
      WriteFails(lines, k);
    } else {
      WriteOne(ser, header, lines, k, rs, r.value, out.data);
      EncodeMessage(out, ser(r.value));
    }
  }

  method StartFile(out: File, ser: Serialize, header: seq<Byte>, ghost lines: seq<string>)
    requires out.data == []
    modifies out`data
    ensures WrittenSoFar(ser, header, lines, 0, [], out.data)
  {
    out.Write(MAGIC);
    EncodeMessage(out, header);
  }

  lemma AllWritten(ser: Serialize, header: seq<Byte>, lines: seq<string>, rs: seq<Record>, data: seq<Byte>)
    requires WrittenSoFar(ser, header, lines, |lines|, rs, data)
    ensures ParseAll(lines) == Ok(rs) && data == FileOf(header, SerializeAll(ser, rs))
  {
    assert lines[..|lines|] == lines;
  }

  /** The whole of the encoder. */
  method EncodeTrace(out: File, ser: Serialize, header: seq<Byte>, text: string) returns (r: Result<(), ParseError>)
    requires out.data == []
    modifies out`data
    ensures r.Ok? ==> EncodeFile(ser, header, text) == Ok(out.data) && StartsWith(out.data, "gem5")
    ensures r.Err? ==> EncodeFile(ser, header, text) == Err(r.error)
  {
    var lines := Lines(text);
    StartFile(out, ser, header, lines);
    ghost var rs: seq<Record> := [];
    for k := 0 to |lines|
      invariant WrittenSoFar(ser, header, lines, k, rs, out.data)
    {
      var record := EncodeLine(out, ser, header, lines, k, rs);
      if record.Err? {
        return Err(record.error);
      }
      rs := rs + [record.value];
    }
    AllWritten(ser, header, lines, rs, out.data);
    FileParts(header, SerializeAll(ser, rs));
    MagicIs(out.data);
    r := Ok(());
  }

  // ---- There and back ----

  /** Every serialized record can be read. */
  ghost predicate Faithful(ser: Serialize, des: Deserialize) {
    forall r :: des(ser(r)) == Some(r)
  }

  lemma {:induction false} DeserializeSerialized(ser: Serialize, des: Deserialize, rs: seq<Record>)
    requires Faithful(ser, des)
    ensures DeserializeAll(des, SerializeAll(ser, rs)) == Some(rs)
  {
    if rs == [] {
    } else {
      var init, r := rs[..|rs| - 1], rs[|rs| - 1];
      DeserializeSerialized(ser, des, init);
      DeserializeSnoc(des, SerializeAll(ser, init), ser(r));
      assert rs == init + [r];
    }
  }

  lemma AfterHeader(data: seq<Byte>, header: seq<Byte>, rest: seq<Byte>)
    requires |data| >= 4 && data[4..] == Encode(|header|) + header + rest && |header| < TWO32
    ensures data[AfterMessage(data, 4)..] == rest
  {
    var at := FirstMessage(data, 4, header, rest);
    if header == [] {
      DecodeLength(data, 4, 0);
    } else {
      ReadsBack(data, at, header, rest);
    }
  }

  lemma FileParts(header: seq<Byte>, ms: seq<seq<Byte>>)
    ensures FileOf(header, ms)[..4] == MAGIC
    ensures FileOf(header, ms)[4..] == Encode(|header|) + header + EncodeAll(ms)
  {
  }

  /** Decoding a file finds the messages it was made of. */
  lemma FileDecodes(header: seq<Byte>, ms: seq<seq<Byte>>, data: seq<Byte>)
    requires |header| < TWO32 && Framable(ms) && data == FileOf(header, ms)
    ensures Take(data, 0, 4) == MAGIC && DecodeAll(data, AfterMessage(data, 4)) == ms
  {
    FileParts(header, ms);
    AfterHeader(data, header, EncodeAll(ms));
    DecodesFrom(data, AfterMessage(data, 4), ms);
  }

  // ---- Different records give different files ----

  lemma EncodeParts(a: nat, x: seq<Byte>, all: seq<Byte>)
    requires all == Encode(a) + x
    ensures |all| > 0 && all[0] == (if a < 128 then a else 128 + a % 128)
    ensures all[1..] == if a < 128 then x else Encode(a / 128) + x
  {
  }

  lemma {:induction false} LengthIsPrefix(a: nat, b: nat, x: seq<Byte>, y: seq<Byte>)
    requires Encode(a) + x == Encode(b) + y
    ensures a == b && x == y
    decreases a
  {
    var all := Encode(a) + x;
    EncodeParts(a, x, all);
    EncodeParts(b, y, all);
    if a >= 128 {
      LengthIsPrefix(a / 128, b / 128, x, y);
    }
  }

  lemma FirstFrame(m: seq<Byte>, n: seq<Byte>, x: seq<Byte>, y: seq<Byte>)
    requires Frame(m) + x == Frame(n) + y
    ensures m == n && x == y
  {
    Regroup(Encode(|m|), m, x);
    Regroup(Encode(|n|), n, y);
    LengthIsPrefix(|m|, |n|, m + x, n + y);
    assert m == (m + x)[..|m|] && n == (n + y)[..|n|];
    assert x == (m + x)[|m|..] && y == (n + y)[|n|..];
  }

  lemma {:induction false} FramesInjective(ms: seq<seq<Byte>>, ns: seq<seq<Byte>>)
    requires EncodeAll(ms) == EncodeAll(ns)
    ensures ms == ns
  {
    if ms == [] || ns == [] {
    } else {
      FirstFrame(ms[0], ns[0], EncodeAll(ms[1..]), EncodeAll(ns[1..]));
      FramesInjective(ms[1..], ns[1..]);
    }
  }

  lemma SameFile(ser: Serialize, des: Deserialize, header: seq<Byte>, rs: seq<Record>, qs: seq<Record>)
    requires Faithful(ser, des) && FileOf(header, SerializeAll(ser, rs)) == FileOf(header, SerializeAll(ser, qs))
    ensures rs == qs
  {
    var start, a, b := MAGIC + Frame(header), EncodeAll(SerializeAll(ser, rs)), EncodeAll(SerializeAll(ser, qs));
    assert a == (start + a)[|start|..] && b == (start + b)[|start|..];
    FramesInjective(SerializeAll(ser, rs), SerializeAll(ser, qs));
    DeserializeSerialized(ser, des, rs);
    DeserializeSerialized(ser, des, qs);
  }

  lemma SameFileExactly(ser: Serialize, des: Deserialize, header: seq<Byte>, rs: seq<Record>, qs: seq<Record>)
    requires Faithful(ser, des)
    ensures FileOf(header, SerializeAll(ser, rs)) == FileOf(header, SerializeAll(ser, qs)) <==> rs == qs
  {
    if FileOf(header, SerializeAll(ser, rs)) == FileOf(header, SerializeAll(ser, qs)) {
      SameFile(ser, des, header, rs, qs);
    }
  }

  lemma EncodedExactly(ser: Serialize, des: Deserialize, header: seq<Byte>, text: string, rs: seq<Record>)
    requires Faithful(ser, des)
    ensures EncodeFile(ser, header, text) == Ok(FileOf(header, SerializeAll(ser, rs)))
       <==> ParseAll(Lines(text)) == Ok(rs)
  {
    var parsed := ParseAll(Lines(text));
    if parsed.Ok? {
      SameFileExactly(ser, des, header, parsed.value, rs);
    }
  }

  /** A trace turned into text and back: the text is that of its records, and the new file holds
      the same records, with the defaults filled in, if and only if each is expressible. */
  lemma ConvertedBackExactly(ser: Serialize, des: Deserialize, header: seq<Byte>, header': seq<Byte>,
                             rs: seq<Record>)
    requires Faithful(ser, des) && |header| < TWO32 && Framable(SerializeAll(ser, rs))
    ensures DecodeFile(des, FileOf(header, SerializeAll(ser, rs))) == Ok(PrintAll(rs))
    ensures EncodeFile(ser, header', PrintAll(rs)) == Ok(FileOf(header', SerializeAll(ser, NormaliseAll(rs))))
       <==> AllExpressible(rs)
  {
    FileDecodes(header, SerializeAll(ser, rs), FileOf(header, SerializeAll(ser, rs)));
    DeserializeSerialized(ser, des, rs);
    TraceRoundTripExactly(rs);
    EncodedExactly(ser, des, header', PrintAll(rs), NormaliseAll(rs));
  }

  lemma {:induction false} NormalisedPrintsSame(rs: seq<Record>)
    ensures LineOfEach(NormaliseAll(rs)) == LineOfEach(rs)
  {
    if rs == [] {
    } else {
      var init, r := rs[..|rs| - 1], rs[|rs| - 1];
      NormalisedPrintsSame(init);
      assert Fields(Normalised(r)) == Fields(r);
      assert NormaliseAll(rs)[..|NormaliseAll(rs)| - 1] == NormaliseAll(init);
    }
  }

  /** The text of expressible records turned into a file and back is the same text. */
  lemma TextComesBack(ser: Serialize, des: Deserialize, header: seq<Byte>, rs: seq<Record>)
    requires Faithful(ser, des) && |header| < TWO32 && AllExpressible(rs)
    requires Framable(SerializeAll(ser, NormaliseAll(rs)))
    ensures
      var file := EncodeFile(ser, header, PrintAll(rs));
      file.Ok? && DecodeFile(des, file.value) == Ok(PrintAll(rs))
  {
    TraceRoundTripExactly(rs);
    NormalisedPrintsSame(rs);
    ConvertedBackExactly(ser, des, header, header, NormaliseAll(rs));
  }
}
