/** The trace sanitiser `ParseTracefile` of
    scratch/previous-sims/gpsr-test1.cc: it reads the trace character by
    character while the stream is good, keeps the printable ones, and writes
    them to a freshly truncated output file.  The read that hits end of
    file yields `EOF`, which is not printable, so nothing of it reaches the
    output.  Printable means the ASCII range 0x20 to 0x7E. */
module Sanitiser {

  type Byte = b: int | 0 <= b < 256

  /** `isprint` in the "C" locale. */
  predicate Printable(c: Byte)
  {
    0x20 <= c <= 0x7E
  }

  /** Reference definition: `s` with every non-printable byte removed. */
  function Filter(s: seq<Byte>): (r: seq<Byte>)
    decreases |s|
  {
    if |s| == 0 then []
    else Filter(s[..|s| - 1]) + (if Printable(s[|s| - 1]) then [s[|s| - 1]] else [])
  }

  /** What one `out.get ()` returns. */
  datatype Get = Char(c: Byte) | Eof

  /** `isprint` applied to the value read; `EOF` is never printable. */
  predicate PrintableGet(g: Get)
  {
    g.Char? && Printable(g.c)
  }

  /** `ParseTracefile`: the contents of the new trace for an input trace
      `contents`. */
  method ParseTracefile(contents: seq<Byte>) returns (out: seq<Byte>)
    ensures out == Filter(contents)
  {
    var temp: seq<Byte> := [];
    var pos := 0;
    var good := true;
    while good
      invariant 0 <= pos <= |contents|
      invariant temp == Filter(contents[..pos])
      invariant !good ==> pos == |contents|
      decreases |contents| - pos, good
    {
      var got: Get;
      if pos < |contents| {
        got := Char(contents[pos]);
        assert contents[..pos + 1][..pos] == contents[..pos];
        pos := pos + 1;
      } else {
        got := Eof;
        good := false;
      }
      if PrintableGet(got) {
        temp := temp + [got.c];
      }
    }
    assert contents[..pos] == contents;
    out := temp;
  }

  /** Filtering distributes over concatenation, so the relative order of
      kept bytes is that of the input. */
  lemma {:induction false} FilterAppend(a: seq<Byte>, b: seq<Byte>)
    ensures Filter(a + b) == Filter(a) + Filter(b)
    decreases |b|
  {
    if |b| > 0 {
      var b' := b[..|b| - 1];
      FilterAppend(a, b');
      assert (a + b)[..|a + b| - 1] == a + b';
      assert (a + b)[|a + b| - 1] == b[|b| - 1];
    } else {
      assert a + b == a;
    }
  }

  /** The output holds only printable bytes, is never longer than the
      input, and keeps every printable byte as often as the input has it. */
  lemma {:induction false} FilterContents(s: seq<Byte>)
    ensures |Filter(s)| <= |s|
    ensures forall i :: 0 <= i < |Filter(s)| ==> Printable(Filter(s)[i])
    ensures forall c: Byte :: Printable(c) ==> multiset(Filter(s))[c] == multiset(s)[c]
    ensures forall c: Byte :: !Printable(c) ==> multiset(Filter(s))[c] == 0
    decreases |s|
  {
    if |s| > 0 {
      var front := s[..|s| - 1];
      FilterContents(front);
      assert s == front + [s[|s| - 1]];
    }
  }

  lemma {:induction false} PrintableUnchanged(s: seq<Byte>)
    requires forall i :: 0 <= i < |s| ==> Printable(s[i])
    ensures Filter(s) == s
    decreases |s|
  {
    if |s| > 0 {
      var front := s[..|s| - 1];
      assert forall i :: 0 <= i < |front| ==> front[i] == s[i];
      PrintableUnchanged(front);
      assert s == front + [s[|s| - 1]];
    }
  }

  /** A trace that is already printable passes unchanged, and only such a
      trace does. */
  lemma FilterFixed(s: seq<Byte>)
    ensures Filter(s) == s <==> forall i :: 0 <= i < |s| ==> Printable(s[i])
  {
    FilterContents(s);
    if forall i :: 0 <= i < |s| ==> Printable(s[i]) {
      PrintableUnchanged(s);
    }
  }

  /** Sanitising is idempotent: filtering the output again changes
      nothing. */
  lemma FilterIdempotent(s: seq<Byte>)
    ensures Filter(Filter(s)) == Filter(s)
  {
    FilterContents(s);
    FilterFixed(Filter(s));
  }
}
