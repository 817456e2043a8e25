// ByteRun1, the run-length code of ILBM BODY chunks (the "ByteRun1"
// appendix of the EA IFF 85 ILBM standard), as picio.py decodes and encodes
// it.
//
// A compressed stream is a sequence of records, each introduced by a control
// byte n read as a signed 8-bit number:
//   0..127     the next n+1 bytes are copied literally,
//   -127..-1   the next byte is replicated 1-n times,
//   -128       no operation.

module ByteRun {
  import opened Support

  /** Why byterun_decode raised instead of finishing. */
  datatype DecodeError =
    | ReplicateByteMissing   // a replicate control is the last input byte: bytes_in[bin+1] raises IndexError

  /** The control byte read as a signed 8-bit number. */
  function Signed(b: byte): (n: int)
    ensures -128 <= n <= 127
    ensures (n - b) % 256 == 0
  {
    if b > 127 then b - 256 else b
  }

  /** Python's `[v] * k`: k copies of v. */
  function Fill(k: nat, v: byte): (r: seq<byte>)
    ensures |r| == k && forall i :: 0 <= i < k ==> r[i] == v
  {
    seq(k, _ => v)
  }

  /** Python's slice assignment `out[lo:hi] = src` on a bytearray: the slice
    * bound `hi` is clipped to the length, and a source of a different length
    * than the slice resizes the array. */
  function Splice(out: seq<byte>, lo: nat, hi: nat, src: seq<byte>): (r: seq<byte>)
    requires lo <= |out| && lo <= hi
    ensures |r| == |out| - (Min(hi, |out|) - lo) + |src|
  {
    out[..lo] + src + out[Min(hi, |out|)..]
  }

  /** What byterun_decode leaves in `bytes_out` when its loop resumes with
    * read position `bin` and write position `bout` (picio.py:80-101). The
    * loop runs while output room and input remain. */
  function Decode(inp: seq<byte>, bin: nat, out: seq<byte>, bout: nat): Result<seq<byte>, DecodeError>
    decreases |inp| - bin, 1
  {
    if bout >= |out| || bin >= |inp| then Ok(out) else DecodeTurn(inp, bin, out, bout)
  }

  /** One turn of the loop, selected by the control byte at `bin`. */
  function DecodeTurn(inp: seq<byte>, bin: nat, out: seq<byte>, bout: nat): Result<seq<byte>, DecodeError>
    requires bin < |inp| && bout < |out|
    decreases |inp| - bin, 0
  {
    var n := Signed(inp[bin]);
    if n >= 0 then
      Decode(inp, bin + n + 2, Splice(out, bout, bout + n + 1, inp[bin + 1 .. Min(bin + n + 2, |inp|)]), bout + n + 1)
    else if n > -128 then
      if bin + 1 >= |inp| then Err(ReplicateByteMissing)
      else Decode(inp, bin + 2, Splice(out, bout, bout - n + 1, Fill(1 - n, inp[bin + 1])), bout - n + 1)
    else
      Decode(inp, bin + 1, out, bout)
  }

  /** byterun_decode (picio.py:80-101). The source mutates the bytearray
    * `bytes_out`; the method returns what that bytearray holds when the
    * loop ends, or the IndexError it raises. */
  method ByteRunDecode(bytesIn: seq<byte>, bytesOut: seq<byte>) returns (r: Result<seq<byte>, DecodeError>)
    ensures r == Decode(bytesIn, 0, bytesOut, 0)
  {
    var bin: nat, bout: nat := 0, 0;
    var out := bytesOut;
    while bout < |out| && bin < |bytesIn|
      invariant Decode(bytesIn, bin, out, bout) == Decode(bytesIn, 0, bytesOut, 0)
      decreases |bytesIn| - bin
    {
      var n := Signed(bytesIn[bin]);
      if n >= 0 {
        out := Splice(out, bout, bout + n + 1, bytesIn[bin + 1 .. Min(bin + n + 2, |bytesIn|)]);
        bin := bin + n + 2;
        bout := bout + n + 1;
      } else if n > -128 {
        n := -n;
        if bin + 1 >= |bytesIn| {
          return Err(ReplicateByteMissing);
        }
        out := Splice(out, bout, bout + n + 1, Fill(n + 1, bytesIn[bin + 1]));
        bin := bin + 2;
        bout := bout + n + 1;
      } else {
        bin := bin + 1;
      }
    }
    return Ok(out);
  }

  // ---------------------------------------------------------------------
  // Records

  /** One ByteRun1 record, as the encoder emits it. */
  datatype Record = Literal(bytes: seq<byte>) | Replicate(count: nat, value: byte)

  /** The sizes the encoder keeps to: 1..128 literal bytes, 2..128 copies. */
  predicate WellSized(r: Record)
  {
    if r.Literal? then 1 <= |r.bytes| <= 128 else 2 <= r.count <= 128
  }

  predicate AllWellSized(rs: seq<Record>)
  {
    forall i :: 0 <= i < |rs| ==> WellSized(rs[i])
  }

  /** The bytes of one record: control count-1 then the bytes of a literal,
    * control 257-count (that is -(count-1) as a signed byte) then the value of a replicate. */
  function Wire(r: Record): (w: seq<byte>)
    requires WellSized(r)
  {
    if r.Literal? then [|r.bytes| - 1] + r.bytes else [257 - r.count, r.value]
  }

  function WireAll(rs: seq<Record>): seq<byte>
    requires AllWellSized(rs)
  {
    if rs == [] then [] else Wire(rs[0]) + WireAll(rs[1..])
  }

  /** The bytes a record stands for. */
  function Expansion(r: Record): seq<byte>
  {
    if r.Literal? then r.bytes else Fill(r.count, r.value)
  }

  function ExpandAll(rs: seq<Record>): seq<byte>
  {
    if rs == [] then [] else Expansion(rs[0]) + ExpandAll(rs[1..])
  }

  lemma {:induction false} WireAllAppend(a: seq<Record>, b: seq<Record>)
    requires AllWellSized(a) && AllWellSized(b)
    ensures AllWellSized(a + b)
    ensures WireAll(a + b) == WireAll(a) + WireAll(b)
  {
    if a == [] {
      assert a + b == b;
    } else {
      assert (a + b)[1..] == a[1..] + b;
      WireAllAppend(a[1..], b);
    }
  }

  lemma {:induction false} ExpandAllAppend(a: seq<Record>, b: seq<Record>)
    ensures ExpandAll(a + b) == ExpandAll(a) + ExpandAll(b)
  {
    if a == [] {
      assert a + b == b;
    } else {
      assert (a + b)[1..] == a[1..] + b;
      ExpandAllAppend(a[1..], b);
    }
  }

  // ---------------------------------------------------------------------
  // Decoding one record at a time

  /** Record r starts at read position bin of inp: its control byte, then its data. */
  predicate RecordAt(r: Record, inp: seq<byte>, bin: nat)
  {
    WellSized(r) &&
    if r.Literal? then
      bin + |r.bytes| + 1 <= |inp| && inp[bin] == |r.bytes| - 1 && inp[bin + 1..bin + |r.bytes| + 1] == r.bytes
    else
      bin + 2 <= |inp| && inp[bin] == 257 - r.count && inp[bin + 1] == r.value
  }

  /** The records rs follow one another on inp from position bin. */
  predicate StreamAt(rs: seq<Record>, inp: seq<byte>, bin: nat)
    decreases |rs|
  {
    rs == [] || (RecordAt(rs[0], inp, bin) && StreamAt(rs[1..], inp, bin + |Wire(rs[0])|))
  }

  /** The wire bytes of well-sized records, placed in an input, are a stream there. */
  lemma {:induction false} StreamAtWire(rs: seq<Record>, pre: seq<byte>, t: seq<byte>)
    requires AllWellSized(rs)
    ensures StreamAt(rs, pre + WireAll(rs) + t, |pre|)
    decreases |rs|
  {
    if rs != [] {
      var w := Wire(rs[0]);
      var w' := WireAll(rs[1..]);
      assert AllWellSized(rs[1..]) by {
        forall i | 0 <= i < |rs| - 1 ensures WellSized(rs[1..][i]) {
          assert rs[1..][i] == rs[i + 1];
        }
      }
      Assoc(pre, w, w');
      Assoc(pre + w, w', t);
      StreamAtWire(rs[1..], pre + w, t);
      RecordAtWire(rs[0], pre, w' + t);
    }
  }

  /** The wire bytes of one record, placed in an input, are that record there. */
  lemma {:induction false} RecordAtWire(r: Record, pre: seq<byte>, rest: seq<byte>)
    requires WellSized(r)
    ensures RecordAt(r, pre + Wire(r) + rest, |pre|)
  {
    var inp := pre + Wire(r) + rest;
    assert inp[|pre|] == Wire(r)[0];
    if r.Literal? {
      assert inp[|pre| + 1..|pre| + |r.bytes| + 1] == r.bytes;
    } else {
      assert inp[|pre| + 1] == Wire(r)[1];
    }
  }

  /** A record at read position bin, with room for its expansion at write
    * position bout, writes the expansion there and moves both positions past it. */
  lemma {:induction false} DecodeRecord(r: Record, inp: seq<byte>, bin: nat, out: seq<byte>, bout: nat)
    requires RecordAt(r, inp, bin) && bout + |Expansion(r)| <= |out|
    ensures Decode(inp, bin, out, bout)
         == Decode(inp, bin + |Wire(r)|, Splice(out, bout, bout + |Expansion(r)|, Expansion(r)), bout + |Expansion(r)|)
  {
    if r.Literal? {
      DecodeLiteral(r.bytes, inp, bin, out, bout);
    } else {
      DecodeReplicate(r.count, r.value, inp, bin, out, bout);
    }
  }

  /** Control n in 0..127 copies the next n+1 bytes to the write position. */
  lemma {:induction false} DecodeLiteral(bs: seq<byte>, inp: seq<byte>, bin: nat, out: seq<byte>, bout: nat)
    requires 1 <= |bs| <= 128 && bin + |bs| + 1 <= |inp| && inp[bin] == |bs| - 1 && inp[bin + 1..bin + |bs| + 1] == bs
    requires bout + |bs| <= |out|
    ensures Decode(inp, bin, out, bout) == Decode(inp, bin + |bs| + 1, Splice(out, bout, bout + |bs|, bs), bout + |bs|)
  {
    assert Min(bin + |bs| + 1, |inp|) == bin + |bs| + 1;
  }

  /** Control 257-c (the signed value 1-c, c in 2..128) replicates the next byte c times. */
  lemma {:induction false} DecodeReplicate(c: nat, v: byte, inp: seq<byte>, bin: nat, out: seq<byte>, bout: nat)
    requires 2 <= c <= 128 && bin + 2 <= |inp| && inp[bin] == 257 - c && inp[bin + 1] == v
    requires bout + c <= |out|
    ensures Decode(inp, bin, out, bout) == Decode(inp, bin + 2, Splice(out, bout, bout + c, Fill(c, v)), bout + c)
  {
  }

  /** Writing src at bout keeps the buffer's length and puts src after the first bout bytes. */
  lemma {:induction false} SplicePrefix(out: seq<byte>, bout: nat, src: seq<byte>)
    requires bout + |src| <= |out|
    ensures |Splice(out, bout, bout + |src|, src)| == |out|
    ensures Splice(out, bout, bout + |src|, src)[..bout + |src|] == out[..bout] + src
  {
    var r := Splice(out, bout, bout + |src|, src);
    assert r == out[..bout] + src + out[bout + |src|..];
  }

  /** Control byte 128 (-128 signed) consumes only itself. */
  lemma {:induction false} DecodeNoOp(inp: seq<byte>, bin: nat, out: seq<byte>, bout: nat)
    requires bin < |inp| && inp[bin] == 128 && bout < |out|
    ensures Decode(inp, bin, out, bout) == Decode(inp, bin + 1, out, bout)
  {
  }

  /** A stream of records at read position bin whose expansion exactly
    * fills the buffer from write position bout decodes to the first bout
    * bytes followed by that expansion, and whatever input follows it is ignored. */
  lemma {:induction false} DecodeStream(rs: seq<Record>, inp: seq<byte>, bin: nat, out: seq<byte>, bout: nat)
    requires StreamAt(rs, inp, bin) && bout + |ExpandAll(rs)| == |out|
    ensures Decode(inp, bin, out, bout) == Ok(out[..bout] + ExpandAll(rs))
    decreases |rs|
  {
    if rs == [] {
      assert out[..bout] + ExpandAll(rs) == out;
    } else {
      var e := Expansion(rs[0]);
      var out' := Splice(out, bout, bout + |e|, e);
      SplicePrefix(out, bout, e);
      DecodeStream(rs[1..], inp, bin + |Wire(rs[0])|, out', bout + |e|);
      DecodeFirst(rs[0], ExpandAll(rs[1..]), inp, bin, out, bout);
    }
  }

  /** The step of DecodeStream: the first record r, then the rest (which
    * expands to t) as decoded by induction. */
  lemma {:induction false} DecodeFirst(r: Record, t: seq<byte>, inp: seq<byte>, bin: nat, out: seq<byte>, bout: nat)
    requires RecordAt(r, inp, bin) && bout + |Expansion(r)| + |t| == |out|
    requires
      var e := Expansion(r);
      var out' := Splice(out, bout, bout + |e|, e);
      out'[..bout + |e|] == out[..bout] + e &&
      Decode(inp, bin + |Wire(r)|, out', bout + |e|) == Ok(out'[..bout + |e|] + t)
    ensures Decode(inp, bin, out, bout) == Ok(out[..bout] + (Expansion(r) + t))
  {
    var e := Expansion(r);
    var out' := Splice(out, bout, bout + |e|, e);
    DecodeRecord(r, inp, bin, out, bout);
    Chain(Decode(inp, bin, out, bout), Decode(inp, bin + |Wire(r)|, out', bout + |e|),
          out[..bout], out'[..bout + |e|], e, t, e + t);
  }

  /** The step of DecodeStream: a result that equals the decoding of the
    * rest, which writes the rest after the prefix and the first record's bytes. */
  lemma {:induction false} Chain(first: Result<seq<byte>, DecodeError>, rest: Result<seq<byte>, DecodeError>,
                                 pre: seq<byte>, pre': seq<byte>, e: seq<byte>, t: seq<byte>, whole: seq<byte>)
    requires first == rest && rest == Ok(pre' + t) && pre' == pre + e && whole == e + t
    ensures first == Ok(pre + whole)
  {
    Assoc(pre, e, t);
  }

  // ---------------------------------------------------------------------
  // Encoding (picio.py:238-287)

  /** A maximal run of equal bytes: one entry of numpy's run lengths `z`
    * and values `vals`. */
  datatype Run = Run(len: nat, val: byte)

  /** The end of the run of x[i] that starts at i. */
  function RunEnd(x: seq<byte>, i: nat): (e: nat)
    requires i < |x|
    ensures i < e <= |x|
    ensures forall t :: i <= t < e ==> x[t] == x[i]
    ensures e == |x| || x[e] != x[i]
    decreases |x| - i
  {
    if i + 1 < |x| && x[i + 1] == x[i] then RunEnd(x, i + 1) else i + 1
  }

  /** The maximal runs of x[i..], in order (picio.py:244-247). */
  function RunsFrom(x: seq<byte>, i: nat): seq<Run>
    decreases |x| - i
  {
    if i >= |x| then [] else
      var e := RunEnd(x, i);
      [Run(e - i, x[i])] + RunsFrom(x, e)
  }

  function Runs(x: seq<byte>): seq<Run>
  {
    RunsFrom(x, 0)
  }

  function ExpandRuns(rs: seq<Run>): seq<byte>
  {
    if rs == [] then [] else Fill(rs[0].len, rs[0].val) + ExpandRuns(rs[1..])
  }

  /** Concatenating the runs of x[i..] gives back x[i..]. */
  lemma {:induction false} RunsExpand(x: seq<byte>, i: nat)
    requires i <= |x|
    ensures ExpandRuns(RunsFrom(x, i)) == x[i..]
    decreases |x| - i
  {
    if i < |x| {
      var e := RunEnd(x, i);
      var rs := RunsFrom(x, i);
      RunsExpand(x, e);
      assert rs[1..] == RunsFrom(x, e);
      assert Fill(e - i, x[i]) == x[i..e];
      assert x[i..] == x[i..e] + x[e..];
    }
  }

  /** Every run is non-empty, and neighbouring runs hold different values. */
  lemma {:induction false} RunsMaximal(x: seq<byte>, i: nat)
    ensures forall t :: 0 <= t < |RunsFrom(x, i)| ==> RunsFrom(x, i)[t].len >= 1
    ensures forall t :: 0 <= t < |RunsFrom(x, i)| - 1 ==> RunsFrom(x, i)[t].val != RunsFrom(x, i)[t + 1].val
    decreases |x| - i
  {
    if i < |x| {
      var e := RunEnd(x, i);
      var rs := RunsFrom(x, i);
      RunsMaximal(x, e);
      assert rs[1..] == RunsFrom(x, e);
      if e < |x| {
        assert rs[1].val == x[e];
      }
    }
  }

  /** The records for one run of two or more copies: 128-copy records while
    * more than 128 remain, then the rest; a single leftover copy becomes a
    * one-byte literal (its control 256-1+1 wraps to 0 in the uint8 output). */
  function RunRecords(len: nat, v: byte): (rs: seq<Record>)
    requires len >= 1
    ensures AllWellSized(rs)
    decreases len
  {
    if len > 128 then [Replicate(128, v)] + RunRecords(len - 128, v)
    else if len == 1 then [Literal([v])]
    else [Replicate(len, v)]
  }

  /** The records of a run expand to its len copies. */
  lemma {:induction false} RunRecordsExpand(len: nat, v: byte)
    requires len >= 1
    ensures ExpandAll(RunRecords(len, v)) == Fill(len, v)
    decreases len
  {
    if len > 128 {
      var rest := RunRecords(len - 128, v);
      RunRecordsExpand(len - 128, v);
      ExpandAllAppend([Replicate(128, v)], rest);
      assert Fill(128, v) + Fill(len - 128, v) == Fill(len, v);
    } else if len == 1 {
      assert ExpandAll([Literal([v])]) == [v];
    } else {
      assert ExpandAll([Replicate(len, v)]) == Fill(len, v);
    }
  }

  /** The literal records for a stretch of single bytes: 128 at a time, then the rest. */
  function LiteralRecords(vals: seq<byte>): (rs: seq<Record>)
    requires |vals| >= 1
    ensures AllWellSized(rs)
    decreases |vals|
  {
    if |vals| > 128 then [Literal(vals[..128])] + LiteralRecords(vals[128..])
    else [Literal(vals)]
  }

  /** The literal records of a stretch expand to the stretch. */
  lemma {:induction false} LiteralRecordsExpand(vals: seq<byte>)
    requires |vals| >= 1
    ensures ExpandAll(LiteralRecords(vals)) == vals
    decreases |vals|
  {
    if |vals| > 128 {
      var rest := LiteralRecords(vals[128..]);
      LiteralRecordsExpand(vals[128..]);
      ExpandAllAppend([Literal(vals[..128])], rest);
      assert ExpandAll([Literal(vals[..128])]) == vals[..128];
      assert vals == vals[..128] + vals[128..];
    } else {
      assert ExpandAll([Literal(vals)]) == vals;
    }
  }

  /** numpy's `vals`: the value of each run. */
  function ValsOf(rs: seq<Run>): (vs: seq<byte>)
    ensures |vs| == |rs| && forall i :: 0 <= i < |rs| ==> vs[i] == rs[i].val
  {
    seq(|rs|, i requires 0 <= i < |rs| => rs[i].val)
  }

  /** numpy's run lengths `z`, without the sentinel 0 the encoder appends. */
  function LengthsOf(rs: seq<Run>): (z: seq<nat>)
    ensures |z| == |rs| && forall i :: 0 <= i < |rs| ==> z[i] == rs[i].len
  {
    seq(|rs|, i requires 0 <= i < |rs| => rs[i].len)
  }

  /** The end of the stretch of runs of length one that starts at j. */
  function SinglesEnd(rs: seq<Run>, j: nat): (e: nat)
    requires j < |rs| && rs[j].len == 1
    ensures j < e <= |rs|
    ensures forall i :: j <= i < e ==> rs[i].len == 1
    ensures e == |rs| || rs[e].len != 1
    decreases |rs| - j
  {
    if j + 1 < |rs| && rs[j + 1].len == 1 then SinglesEnd(rs, j + 1) else j + 1
  }

  /** The records the encoder's main loop emits from run j on: a run of two
    * or more gives replicate records, a stretch of single runs gives literal
    * records, a run of length zero (the sentinel) is skipped. */
  function EncodeFrom(rs: seq<Run>, j: nat): (recs: seq<Record>)
    ensures AllWellSized(recs)
    decreases |rs| - j
  {
    if j >= |rs| then []
    else if rs[j].len > 1 then
      var a := RunRecords(rs[j].len, rs[j].val);
      var b := EncodeFrom(rs, j + 1);
      AllWellSizedAppend(a, b);
      a + b
    else if rs[j].len == 1 then
      var e := SinglesEnd(rs, j);
      var a := LiteralRecords(ValsOf(rs)[j..e]);
      var b := EncodeFrom(rs, e);
      AllWellSizedAppend(a, b);
      a + b
    else EncodeFrom(rs, j + 1)
  }

  lemma {:induction false} AllWellSizedAppend(a: seq<Record>, b: seq<Record>)
    requires AllWellSized(a) && AllWellSized(b)
    ensures AllWellSized(a + b)
  {
    forall i | 0 <= i < |a + b| ensures WellSized((a + b)[i]) {
      if i >= |a| {
        assert (a + b)[i] == b[i - |a|];
      }
    }
  }

  /** The records picio.py's byterun_encode emits for a byte sequence. */
  function EncodeRecords(x: seq<byte>): (recs: seq<Record>)
    ensures AllWellSized(recs)
  {
    EncodeFrom(Runs(x), 0)
  }

  /** The bytes byterun_encode returns for a non-empty input. */
  function Encoding(x: seq<byte>): seq<byte>
  {
    WireAll(EncodeRecords(x))
  }

  /** The runs from j on, written out. */
  lemma {:induction false} ExpandRunsAt(rs: seq<Run>, j: nat)
    requires j < |rs|
    ensures ExpandRuns(rs[j..]) == Fill(rs[j].len, rs[j].val) + ExpandRuns(rs[j + 1..])
  {
    assert rs[j..][1..] == rs[j + 1..];
  }

  /** Expanding the records emitted from run j on restores those runs. */
  lemma {:induction false} EncodeFromExpand(rs: seq<Run>, j: nat)
    requires j <= |rs|
    ensures ExpandAll(EncodeFrom(rs, j)) == ExpandRuns(rs[j..])
    decreases |rs| - j
  {
    if j == |rs| {
      assert rs[j..] == [];
    } else if rs[j].len > 1 {
      EncodeFromExpand(rs, j + 1);
      RepeatExpand(rs, j);
    } else if rs[j].len == 1 {
      var e := SinglesEnd(rs, j);
      EncodeFromExpand(rs, e);
      SinglesStretchExpand(rs, j, e);
    } else {
      EncodeFromExpand(rs, j + 1);
      ExpandRunsAt(rs, j);
      assert Fill(0, rs[j].val) == [];
    }
  }

  lemma {:induction false} RepeatExpand(rs: seq<Run>, j: nat)
    requires j < |rs| && rs[j].len > 1
    requires ExpandAll(EncodeFrom(rs, j + 1)) == ExpandRuns(rs[j + 1..])
    ensures ExpandAll(EncodeFrom(rs, j)) == ExpandRuns(rs[j..])
  {
    RunRecordsExpand(rs[j].len, rs[j].val);
    ExpandAllAppend(RunRecords(rs[j].len, rs[j].val), EncodeFrom(rs, j + 1));
    ExpandRunsAt(rs, j);
  }

  lemma {:induction false} SinglesStretchExpand(rs: seq<Run>, j: nat, e: nat)
    requires j < |rs| && rs[j].len == 1 && e == SinglesEnd(rs, j)
    requires ExpandAll(EncodeFrom(rs, e)) == ExpandRuns(rs[e..])
    ensures ExpandAll(EncodeFrom(rs, j)) == ExpandRuns(rs[j..])
  {
    var vs := ValsOf(rs)[j..e];
    LiteralRecordsExpand(vs);
    ExpandAllAppend(LiteralRecords(vs), EncodeFrom(rs, e));
    SinglesExpand(rs, j, e);
  }

  /** A stretch of single runs written out is the stretch of their values. */
  lemma {:induction false} SinglesExpand(rs: seq<Run>, j: nat, e: nat)
    requires j <= e <= |rs| && forall i :: j <= i < e ==> rs[i].len == 1
    ensures ExpandRuns(rs[j..]) == ValsOf(rs)[j..e] + ExpandRuns(rs[e..])
    decreases e - j
  {
    if j < e {
      SinglesExpand(rs, j + 1, e);
      ExpandRunsAt(rs, j);
      assert Fill(1, rs[j].val) == [ValsOf(rs)[j]];
      assert ValsOf(rs)[j..e] == [ValsOf(rs)[j]] + ValsOf(rs)[j + 1..e];
      Assoc([ValsOf(rs)[j]], ValsOf(rs)[j + 1..e], ExpandRuns(rs[e..]));
    } else {
      assert ValsOf(rs)[j..e] == [];
    }
  }

  /** Record sizes: every record the encoder emits is a literal of 1..128
    * bytes or a replicate of 2..128 copies, and together they expand to the input. */
  lemma {:induction false} EncodeRecordsSound(x: seq<byte>)
    ensures AllWellSized(EncodeRecords(x))
    ensures ExpandAll(EncodeRecords(x)) == x
  {
    EncodeFromExpand(Runs(x), 0);
    assert Runs(x)[0..] == Runs(x);
    RunsExpand(x, 0);
    assert x[0..] == x;
  }

  /** Round trip: decoding the encoding of a non-empty x into any buffer of
    * len(x) bytes reproduces x, and input after the encoding is ignored. */
  lemma {:induction false} RoundTrip(x: seq<byte>, out: seq<byte>, trailing: seq<byte>)
    requires |out| == |x|
    ensures Decode(Encoding(x) + trailing, 0, out, 0) == Ok(x)
  {
    EncodeRecordsSound(x);
    DecodeWire(EncodeRecords(x), out, trailing);
  }

  /** Decoding the wire bytes of well-sized records into a buffer of the
    * size of their expansion gives that expansion. */
  lemma {:induction false} DecodeWire(rs: seq<Record>, out: seq<byte>, trailing: seq<byte>)
    requires AllWellSized(rs) && |out| == |ExpandAll(rs)|
    ensures Decode(WireAll(rs) + trailing, 0, out, 0) == Ok(ExpandAll(rs))
  {
    StreamAtStart(rs, trailing);
    DecodeStream(rs, WireAll(rs) + trailing, 0, out, 0);
    NoPrefix(out, ExpandAll(rs));
  }

  lemma {:induction false} StreamAtStart(rs: seq<Record>, t: seq<byte>)
    requires AllWellSized(rs)
    ensures StreamAt(rs, WireAll(rs) + t, 0)
  {
    StreamAtWire(rs, [], t);
    assert [] + WireAll(rs) + t == WireAll(rs) + t;
  }

  lemma {:induction false} NoPrefix(out: seq<byte>, e: seq<byte>)
    ensures out[..0] + e == e
  {
    assert out[..0] == [];
  }

  /** The worked example: [5,5,5,5,5,9,9,1,2,3] encodes to [252,5,255,9,2,1,2,3]. */
  lemma {:induction false} EncodeExample()
    ensures Encoding([5, 5, 5, 5, 5, 9, 9, 1, 2, 3]) == [252, 5, 255, 9, 2, 1, 2, 3]
  {
    ExampleRuns();
    ExampleRecords();
    ExampleWire();
  }

  lemma {:induction false} ExampleWire()
    ensures WireAll([Replicate(5, 5), Replicate(2, 9), Literal([1, 2, 3])]) == [252, 5, 255, 9, 2, 1, 2, 3]
  {
    var recs := [Replicate(5, 5), Replicate(2, 9), Literal([1, 2, 3])];
    assert WireAll(recs[2..]) == [2, 1, 2, 3];
    assert WireAll(recs[1..]) == [255, 9] + [2, 1, 2, 3];
  }

  lemma {:induction false} ExampleRuns()
    ensures Runs([5, 5, 5, 5, 5, 9, 9, 1, 2, 3]) == [Run(5, 5), Run(2, 9), Run(1, 1), Run(1, 2), Run(1, 3)]
  {
    var x: seq<byte> := [5, 5, 5, 5, 5, 9, 9, 1, 2, 3];
    assert RunEnd(x, 9) == 10;
    assert RunEnd(x, 8) == 9;
    assert RunEnd(x, 7) == 8;
    assert RunEnd(x, 5) == 7;
    assert RunEnd(x, 0) == 5;
    assert RunsFrom(x, 9) == [Run(1, 3)];
    assert RunsFrom(x, 8) == [Run(1, 2), Run(1, 3)];
    assert RunsFrom(x, 7) == [Run(1, 1), Run(1, 2), Run(1, 3)];
    assert RunsFrom(x, 5) == [Run(2, 9), Run(1, 1), Run(1, 2), Run(1, 3)];
  }

  lemma {:induction false} ExampleRecords()
    ensures EncodeFrom([Run(5, 5), Run(2, 9), Run(1, 1), Run(1, 2), Run(1, 3)], 0)
         == [Replicate(5, 5), Replicate(2, 9), Literal([1, 2, 3])]
  {
    var rs := [Run(5, 5), Run(2, 9), Run(1, 1), Run(1, 2), Run(1, 3)];
    assert SinglesEnd(rs, 2) == 5;
    assert ValsOf(rs)[2..5] == [1, 2, 3];
    assert EncodeFrom(rs, 2) == [Literal([1, 2, 3])];
    assert EncodeFrom(rs, 1) == [Replicate(2, 9), Literal([1, 2, 3])];
  }

  /** byterun_encode (picio.py:238-287): None for an empty input, otherwise
    * the wire bytes of the records above. */
  method ByteRunEncode(inarray: seq<byte>) returns (r: Option<seq<byte>>)
    ensures inarray == [] <==> r == None
    ensures r.Some? ==> r.value == Encoding(inarray)
  {
    if |inarray| == 0 {
      return None;
    }
    var runs := Runs(inarray);
    var vals := ValsOf(runs);
    var z := LengthsOf(runs) + [0];
    var oa := EncodeLoop(runs, vals, z);
    return Some(oa);
  }

  /** What the encoder's `z` holds: the run lengths, then a sentinel 0. */
  predicate IsLengths(z: seq<nat>, runs: seq<Run>)
  {
    |z| == |runs| + 1 && z[|runs|] == 0 && forall i :: 0 <= i < |runs| ==> z[i] == runs[i].len
  }

  /** The main loop of byterun_encode over the run lengths z and values vals. */
  method EncodeLoop(runs: seq<Run>, vals: seq<byte>, z: seq<nat>) returns (oa: seq<byte>)
    requires IsLengths(z, runs) && vals == ValsOf(runs)
    ensures oa == WireAll(EncodeFrom(runs, 0))
  {
    oa := [];
    var j := 0;
    ghost var total := WireAll(EncodeFrom(runs, 0));
    while j < |z|
      invariant 0 <= j <= |z|
      invariant oa + WireAll(EncodeFrom(runs, j)) == total
    {
      if z[j] > 1 {
        ghost var oa0 := oa;
        oa := EmitRepeat(oa, z[j], vals[j]);
        RepeatDone(runs, j, oa0, oa, total);
        j := j + 1;
      } else if z[j] == 1 {
        ghost var j0 := j;
        var copyCount;
        copyCount, j := CountSingles(z, j);
        ghost var oa0 := oa;
        oa := EmitLiteral(oa, vals, j - copyCount, j);
        SinglesDone(runs, j0, j, oa0, oa, total);
      } else {
        j := j + 1;
      }
    }
    assert oa + [] == oa;
  }

  /** The inner loop of the literal branch: the stretch of run lengths 1
    * that starts at j, as its length and the position after it. */
  method CountSingles(z: seq<nat>, j: nat) returns (copyCount: nat, j': nat)
    requires j < |z| && z[j] == 1 && z[|z| - 1] == 0
    ensures j < j' < |z| && copyCount == j' - j
    ensures forall i :: j <= i < j' ==> z[i] == 1
    ensures z[j'] != 1
  {
    copyCount := 0;
    j' := j;
    while j' < |z| && z[j'] == 1
      invariant j <= j' < |z| && copyCount == j' - j
      invariant forall i :: j <= i < j' ==> z[i] == 1
    {
      copyCount := copyCount + 1;
      j' := j' + 1;
    }
  }

  /** After the replicate records of run j, the runs from j+1 on remain to be written. */
  lemma {:induction false} RepeatDone(runs: seq<Run>, j: nat, oa0: seq<byte>, oa: seq<byte>, total: seq<byte>)
    requires j < |runs| && runs[j].len > 1
    requires oa0 + WireAll(EncodeFrom(runs, j)) == total
    requires oa == oa0 + WireAll(RunRecords(runs[j].len, runs[j].val))
    ensures oa + WireAll(EncodeFrom(runs, j + 1)) == total
  {
    var a := RunRecords(runs[j].len, runs[j].val);
    WireAllAppend(a, EncodeFrom(runs, j + 1));
    Assoc(oa0, WireAll(a), WireAll(EncodeFrom(runs, j + 1)));
  }

  /** After the literal records of the single runs j0..j, the runs from j on remain to be written. */
  lemma {:induction false} SinglesDone(runs: seq<Run>, j0: nat, j: nat, oa0: seq<byte>, oa: seq<byte>, total: seq<byte>)
    requires j0 < j <= |runs| && forall i :: j0 <= i < j ==> runs[i].len == 1
    requires j == |runs| || runs[j].len != 1
    requires oa0 + WireAll(EncodeFrom(runs, j0)) == total
    requires oa == oa0 + WireAll(LiteralRecords(ValsOf(runs)[j0..j]))
    ensures oa + WireAll(EncodeFrom(runs, j)) == total
  {
    assert SinglesEnd(runs, j0) == j;
    var a := LiteralRecords(ValsOf(runs)[j0..j]);
    WireAllAppend(a, EncodeFrom(runs, j));
    Assoc(oa0, WireAll(a), WireAll(EncodeFrom(runs, j)));
  }

  /** The replicate branch of byterun_encode: records of 128 copies while
    * more than 128 remain, then the last record of the run. */
  method EmitRepeat(oa: seq<byte>, len: nat, v: byte) returns (oa': seq<byte>)
    requires len > 1
    ensures oa' == oa + WireAll(RunRecords(len, v))
  {
    oa' := oa;
    var rlen := len;
    while rlen > 128
      invariant 1 <= rlen
      invariant oa' + WireAll(RunRecords(rlen, v)) == oa + WireAll(RunRecords(len, v))
    {
      RunRecordsStep(rlen, v);
      Assoc(oa', [129, v], WireAll(RunRecords(rlen - 128, v)));
      oa' := oa' + [129, v];
      rlen := rlen - 128;
    }
    RunRecordsLast(rlen, v);
    oa' := oa' + [(256 - rlen + 1) % 256, v];
  }

  /** The literal branch of byterun_encode for the single bytes vals[lo..hi]:
    * records of 128 bytes while more than 128 remain, then the rest. */
  method EmitLiteral(oa: seq<byte>, vals: seq<byte>, lo: nat, hi: nat) returns (oa': seq<byte>)
    requires lo < hi <= |vals|
    ensures oa' == oa + WireAll(LiteralRecords(vals[lo..hi]))
  {
    ghost var goal := oa + WireAll(LiteralRecords(vals[lo..hi]));
    oa' := oa;
    var copyCount := hi - lo;
    while copyCount > 128
      invariant 1 <= copyCount <= hi - lo
      invariant oa' + WireAll(LiteralRecords(vals[hi - copyCount..hi])) == goal
    {
      EmitLiteralStep(oa', vals, hi, copyCount);
      var header: byte := 127;
      oa' := oa' + [header] + vals[hi - copyCount..hi - copyCount + 128];
      copyCount := copyCount - 128;
    }
    EmitLiteralLast(oa', vals, hi, copyCount);
    var header: byte := copyCount - 1;
    oa' := oa' + [header] + vals[hi - copyCount..hi];
  }

  lemma {:induction false} EmitLiteralStep(acc: seq<byte>, vals: seq<byte>, hi: nat, c: nat)
    requires 128 < c <= hi <= |vals|
    ensures acc + [127] + vals[hi - c..hi - c + 128] + WireAll(LiteralRecords(vals[hi - (c - 128)..hi]))
         == acc + WireAll(LiteralRecords(vals[hi - c..hi]))
  {
    var lo := hi - c;
    assert hi - (c - 128) == lo + 128;
    var block, rest := vals[lo..lo + 128], WireAll(LiteralRecords(vals[lo + 128..hi]));
    LiteralRecordsStep(vals, lo, hi);
    assert WireAll(LiteralRecords(vals[lo..hi])) == [127] + block + rest;
    Assoc([127], block, rest);
    Assoc(acc, [127] + block, rest);
    Assoc(acc, [127], block);
  }

  lemma {:induction false} EmitLiteralLast(acc: seq<byte>, vals: seq<byte>, hi: nat, c: nat)
    requires 1 <= c <= 128 && c <= hi <= |vals|
    ensures acc + [c - 1] + vals[hi - c..hi] == acc + WireAll(LiteralRecords(vals[hi - c..hi]))
  {
    var vs := vals[hi - c..hi];
    LiteralRecordsLast(vs);
    Assoc(acc, [c - 1], vs);
  }

  lemma {:induction false} Assoc(a: seq<byte>, b: seq<byte>, c: seq<byte>)
    ensures a + b + c == a + (b + c)
  {
  }

  /** More than 128 copies: a full replicate record [129, v] comes first. */
  lemma {:induction false} RunRecordsStep(len: nat, v: byte)
    requires len > 128
    ensures WireAll(RunRecords(len, v)) == [129, v] + WireAll(RunRecords(len - 128, v))
  {
    WireAllAppend([Replicate(128, v)], RunRecords(len - 128, v));
    assert WireAll([Replicate(128, v)]) == [129, v];
  }

  /** The last record of a run, with the uint8 wrap of control 256 to 0. */
  lemma {:induction false} RunRecordsLast(len: nat, v: byte)
    requires 1 <= len <= 128
    ensures WireAll(RunRecords(len, v)) == [(256 - len + 1) % 256, v]
  {
    if len == 1 {
      assert WireAll([Literal([v])]) == [0, v];
    } else {
      assert WireAll([Replicate(len, v)]) == [257 - len, v];
    }
  }

  lemma {:induction false} LiteralRecordsStep(vals: seq<byte>, lo: nat, hi: nat)
    requires lo + 128 < hi <= |vals|
    ensures WireAll(LiteralRecords(vals[lo..hi]))
         == [127] + vals[lo..lo + 128] + WireAll(LiteralRecords(vals[lo + 128..hi]))
  {
    var vs := vals[lo..hi];
    assert vs[..128] == vals[lo..lo + 128];
    assert vs[128..] == vals[lo + 128..hi];
    WireAllAppend([Literal(vs[..128])], LiteralRecords(vs[128..]));
    assert WireAll([Literal(vs[..128])]) == [127] + vs[..128];
  }

  lemma {:induction false} LiteralRecordsLast(vs: seq<byte>)
    requires 1 <= |vs| <= 128
    ensures WireAll(LiteralRecords(vs)) == [|vs| - 1] + vs
  {
    assert WireAll([Literal(vs)]) == [|vs| - 1] + vs;
  }
}
