/** Request options (output format and result limit), their defaults and
    merge, and the format dispatch that renders a vector of records. */
module RequestOptions {
  import opened Common

  /** The two output encodings, spelled `json` and `csv` in the query string. */
  datatype OutFormat = Json | Csv

  /** The effective settings of one request. */
  datatype Options = Options(format: OutFormat, results: i32) {
    /** `merge_opt`, generated by `optfield`: every field present in `opt`
        overwrites the corresponding field of this value. */
    function MergeOpt(opt: OptionsOpt): (r: Options)
      ensures opt.format.Some? ==> r.format == opt.format.value
      ensures opt.format.None? ==> r.format == format
      ensures opt.results.Some? ==> r.results == opt.results.value
      ensures opt.results.None? ==> r.results == results
    {
      Options(opt.format.GetOr(format), opt.results.GetOr(results))
    }
  }

  /** The per-request overrides: `Options` with every field optional. */
  datatype OptionsOpt = OptionsOpt(format: Option<OutFormat>, results: Option<i32>)

  /** `Options::default()`. */
  function Default(): (o: Options)
    ensures o.format == Json && o.results == 10
  {
    Options(Json, 10)
  }

  /** `merge`: the defaults, with every field present in `a` written over them. */
  function Merge(a: OptionsOpt): (o: Options)
    ensures a.format.Some? ==> o.format == a.format.value
    ensures a.format.None? ==> o.format == Json
    ensures a.results.Some? ==> o.results == a.results.value
    ensures a.results.None? ==> o.results == 10
  {
    var out := Default();
    out.MergeOpt(a)
  }

  /** Applying the same overrides twice changes nothing more than applying them once. */
  lemma MergeOptIdempotent(o: Options, opt: OptionsOpt)
    ensures o.MergeOpt(opt).MergeOpt(opt) == o.MergeOpt(opt)
  {
  }

  lemma MergeAllAbsent()
    ensures Merge(OptionsOpt(None, None)) == Options(Json, 10)
  {
  }

  lemma MergeAllPresent(f: OutFormat, n: i32)
    ensures Merge(OptionsOpt(Some(f), Some(n))) == Options(f, n)
  {
  }

  /** Each field of the result depends on the same field of the overrides only. */
  lemma MergeFieldsIndependent(a: OptionsOpt, b: OptionsOpt)
    ensures a.format == b.format ==> Merge(a).format == Merge(b).format
    ensures a.results == b.results ==> Merge(a).results == Merge(b).results
  {
  }

  lemma MergeOnlyResults()
    ensures Merge(OptionsOpt(None, Some(3))) == Options(Json, 3)
  {
  }

  /** The serialisers `print` relies on, for one record type `T`. They stand
      for library code: `json` is `serde_json::to_string` on the whole vector,
      `header` and `record` are the header line and the data line the CSV
      writer produces for one element, and `finish` is `into_inner` followed
      by `String::from_utf8` on the writer's buffer. */
  datatype Codec<!T> = Codec(
    json: seq<T> -> Result<string, EncodeError>,
    header: T -> Result<seq<byte>, EncodeError>,
    record: T -> Result<seq<byte>, EncodeError>,
    finish: seq<byte> -> Result<string, EncodeError>)

  /** An encoder failure, converted into the handler error by `?`. */
  function FromEncode(x: Result<string, EncodeError>): (r: Result<string, AppError>)
    ensures r.Ok? <==> x.Ok?
    ensures r.Ok? ==> r.value == x.value
    ensures r.Err? ==> r.error == Encoding(x.error)
  {
    match x
    case Ok(s) => Ok(s)
    case Err(e) => Err(Encoding(e))
  }

  /** What `serialize` appends for one element: the header line before the
      first element only, then the element's own line. */
  function CsvPiece<T>(c: Codec<T>, a: T, first: bool): Result<seq<byte>, EncodeError> {
    if first then
      match c.header(a)
      case Err(e) => Err(e)
      case Ok(h) =>
        match c.record(a)
        case Err(e) => Err(e)
        case Ok(r) => Ok(h + r)
    else
      c.record(a)
  }

  /** The CSV writer's buffer after serialising `out` element by element,
      or the first error met on the way. */
  function CsvBytes<T>(c: Codec<T>, out: seq<T>): Result<seq<byte>, EncodeError>
    decreases |out|
  {
    if |out| == 0 then Ok([])
    else
      match CsvBytes(c, out[..|out| - 1])
      case Err(e) => Err(e)
      case Ok(b) =>
        match CsvPiece(c, out[|out| - 1], |out| == 1)
        case Err(e) => Err(e)
        case Ok(p) => Ok(b + p)
  }

  /** `OutFormat::print` as a value: the text the handler returns, or the
      error that stops it. Only the encoders can fail. */
  function Printed<T>(f: OutFormat, out: seq<T>, c: Codec<T>): (r: Result<string, AppError>)
    ensures r.Err? ==> r.error.Encoding?
  {
    match f
    case Json => FromEncode(c.json(out))
    case Csv =>
      match CsvBytes(c, out)
      case Err(e) => Err(Encoding(e))
      case Ok(b) => FromEncode(c.finish(b))
  }

  /** The CSV writer (`csv::Writer` over an in-memory `Vec<u8>`). */
  class CsvWriter {
    var buf: seq<byte>
    var wroteHeader: bool

    /** `csv::Writer::from_writer(vec![])`. */
    constructor ()
      ensures buf == [] && !wroteHeader
    {
      buf := [];
      wroteHeader := false;
    }

    /** `serialize`: writes the header line before the first element, then
        the element's line. What a failed call leaves in the buffer is not
        specified: the caller abandons the writer. */
    method Serialize<T>(a: T, c: Codec<T>) returns (s: Result<(), EncodeError>)
      modifies this
      ensures var p := CsvPiece(c, a, !old(wroteHeader));
        && (s.Ok? <==> p.Ok?)
        && (s.Ok? ==> buf == old(buf) + p.value && wroteHeader)
        && (s.Err? ==> s.error == p.error)
    {
      if !wroteHeader {
        var h := c.header(a);
        if h.Err? {
          return Err(h.error);
        }
        buf := buf + h.value;
        wroteHeader := true;
      }
      var r := c.record(a);
      if r.Err? {
        return Err(r.error);
      }
      buf := buf + r.value;
      s := Ok(());
    }

  }

  /** `OutFormat::print`. The JSON branch encodes the vector in one call;
      the CSV branch feeds the elements to a fresh writer in order and gives
      up at the first failure. */
  method Print<T>(f: OutFormat, out: seq<T>, c: Codec<T>) returns (r: Result<string, AppError>)
    ensures r == Printed(f, out, c)
  {
    match f
    case Json =>
      r := FromEncode(c.json(out));
    case Csv =>
      var wtr := new CsvWriter();
      for i := 0 to |out|
        invariant wtr.wroteHeader == (i > 0)
        invariant CsvBytes(c, out[..i]) == Ok(wtr.buf)
      {
        assert out[..i + 1][..i] == out[..i];
        var s := wtr.Serialize(out[i], c);
        if s.Err? {
          CsvErrorSticks(c, out, i + 1);
          return Err(Encoding(s.error));
        }
      }
      assert out[..|out|] == out;
      // `into_inner` followed by `String::from_utf8` on the whole buffer
      r := FromEncode(c.finish(wtr.buf));
  }

  /** Printing the same vector in the same format twice gives the same result. */
  method PrintDeterministic<T>(f: OutFormat, out: seq<T>, c: Codec<T>)
    returns (r1: Result<string, AppError>, r2: Result<string, AppError>)
    ensures r1 == r2
  {
    r1 := Print(f, out, c);
    r2 := Print(f, out, c);
  }

  /** Once a prefix of the elements fails to serialise, the whole vector fails
      with that same error: no partial output is ever returned. */
  lemma {:induction false} CsvErrorSticks<T>(c: Codec<T>, out: seq<T>, i: nat)
    requires i <= |out|
    requires CsvBytes(c, out[..i]).Err?
    ensures CsvBytes(c, out) == CsvBytes(c, out[..i])
    decreases |out| - i
  {
    if i < |out| {
      var n := |out| - 1;
      assert out[..n][..i] == out[..i];
      CsvErrorSticks(c, out[..n], i);
    } else {
      assert out[..i] == out;
    }
  }

  /** The CSV branch succeeds exactly when every element's piece does. */
  lemma {:induction false} CsvSucceedsIff<T>(c: Codec<T>, out: seq<T>)
    ensures CsvBytes(c, out).Ok? <==>
      forall i :: 0 <= i < |out| ==> CsvPiece(c, out[i], i == 0).Ok?
    decreases |out|
  {
    if |out| > 0 {
      var n := |out| - 1;
      var pre := out[..n];
      CsvSucceedsIff(c, pre);
      assert forall i :: 0 <= i < n ==> pre[i] == out[i];
    }
  }

  /** The concatenation of a sequence of lines. */
  function Flatten(lines: seq<seq<byte>>): seq<byte>
    decreases |lines|
  {
    if |lines| == 0 then [] else Flatten(lines[..|lines| - 1]) + lines[|lines| - 1]
  }

  /** Every element's data line, in input order. */
  function RecordLines<T>(c: Codec<T>, out: seq<T>): (lines: seq<seq<byte>>)
    requires forall i :: 0 <= i < |out| ==> c.record(out[i]).Ok?
    ensures |lines| == |out|
  {
    seq(|out|, i requires 0 <= i < |out| => c.record(out[i]).value)
  }

  /** A successful CSV rendering is the header line of the first element
      followed by one data line per element, in input order; an empty
      vector renders as nothing at all. */
  lemma {:induction false} CsvLayout<T>(c: Codec<T>, out: seq<T>)
    requires CsvBytes(c, out).Ok?
    ensures forall i :: 0 <= i < |out| ==> c.record(out[i]).Ok?
    ensures |out| == 0 ==> CsvBytes(c, out).value == []
    ensures |out| > 0 ==>
      c.header(out[0]).Ok? &&
      CsvBytes(c, out).value == c.header(out[0]).value + Flatten(RecordLines(c, out))
    decreases |out|
  {
    if |out| > 0 {
      var n := |out| - 1;
      var pre := out[..n];
      var p := CsvPiece(c, out[n], n == 0);
      assert CsvBytes(c, pre).Ok? && p.Ok?;
      assert CsvBytes(c, out).value == CsvBytes(c, pre).value + p.value;
      assert c.record(out[n]).Ok?;
      if n == 0 {
        assert RecordLines(c, out)[..0] == [];
      } else {
        CsvLayout(c, pre);
        assert forall i :: 0 <= i < n ==> c.record(out[i]).Ok? by {
          forall i | 0 <= i < n ensures c.record(out[i]).Ok? {
            assert pre[i] == out[i];
          }
        }
        assert pre[0] == out[0];
        assert RecordLines(c, out)[..n] == RecordLines(c, pre);
        assert p.value == RecordLines(c, out)[n];
      }
    }
  }
}
