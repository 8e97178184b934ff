/**
 * The sentence splitter of the synthesis loop: `re.split(r'([.!?]+)', buffer)`
 * (app/api/websocket_endpoint.py, line 69). Because the pattern has one capturing
 * group, Python returns the list
 *   [text0, run0, text1, run1, ..., textN]
 * of odd length, where every run is a maximal non-empty run of `.`, `!`, `?`
 * and the text pieces hold none of them. The loop then speaks
 * `pieces[i] + pieces[i + 1]` for i = 0, 2, ... and keeps the last piece.
 *
 * The split is computed here as a sequence of `Chunk`s (a text piece and the run
 * after it) and the trailing fragment; `PyList` lays it out as Python's list, and
 * `PyListIndex` says which list position holds which piece.
 */
module SentenceSplit {
  import opened PyStr

  /** A member of the character class `[.!?]`. */
  predicate IsTerminator(c: char) {
    c == '.' || c == '!' || c == '?'
  }

  predicate NoTerminator(s: string) {
    forall i :: 0 <= i < |s| ==> !IsTerminator(s[i])
  }

  predicate AllTerminators(s: string) {
    forall i :: 0 <= i < |s| ==> IsTerminator(s[i])
  }

  /** Length of the longest prefix of `s` without a terminator. */
  function TextLength(s: string): (k: nat)
    ensures k <= |s|
    ensures forall i :: 0 <= i < k ==> !IsTerminator(s[i])
    ensures k < |s| ==> IsTerminator(s[k])
  {
    if s == [] || IsTerminator(s[0]) then 0 else 1 + TextLength(s[1..])
  }

  /** Length of the run of terminators that `s` starts with (what `[.!?]+` matches greedily). */
  function RunLength(s: string): (k: nat)
    ensures k <= |s|
    ensures forall i :: 0 <= i < k ==> IsTerminator(s[i])
    ensures k < |s| ==> !IsTerminator(s[k])
  {
    if s == [] || !IsTerminator(s[0]) then 0 else 1 + RunLength(s[1..])
  }

  /** A text piece and the run of terminators that follows it. */
  datatype Chunk = Chunk(text: string, run: string)

  /** The result of the split: the chunks in order, then the trailing fragment. */
  datatype Parts = Parts(chunks: seq<Chunk>, tail: string)

  /** `sentences[i] + sentences[i + 1]` (line 74). */
  function Sentence(c: Chunk): string {
    c.text + c.run
  }

  /** The sentences the loop `for i in range(0, len(sentences) - 1, 2)` visits, in order. */
  function Sentences(cs: seq<Chunk>): (r: seq<string>)
    ensures |r| == |cs|
    ensures forall j :: 0 <= j < |cs| ==> r[j] == Sentence(cs[j])
  {
    if cs == [] then [] else [Sentence(cs[0])] + Sentences(cs[1..])
  }

  /** The text the parts spell when put back together. */
  function Joined(p: Parts): string {
    Join(Sentences(p.chunks)) + p.tail
  }

  /** `re.split(r'([.!?]+)', s)`, chunk by chunk. */
  function Split(s: string): Parts
    decreases |s|
  {
    var t := TextLength(s);
    if t == |s| then
      Parts([], s)
    else
      var x := s[t..];
      var n := RunLength(x);
      assert x[0] == s[t];
      var p := Split(x[n..]);
      Parts([Chunk(s[..t], x[..n])] + p.chunks, p.tail)
  }

  /** The list Python returns: text and run of each chunk in turn, then the trailing fragment. */
  function PyList(p: Parts): seq<string>
    decreases |p.chunks|
  {
    if p.chunks == [] then [p.tail]
    else [p.chunks[0].text, p.chunks[0].run] + PyList(Parts(p.chunks[1..], p.tail))
  }

  /**
   * The list has odd length; position `2 * j` holds the text of chunk `j`, position
   * `2 * j + 1` its run, and the last position the trailing fragment.
   */
  lemma {:induction false} PyListIndex(p: Parts)
    ensures |PyList(p)| == 2 * |p.chunks| + 1
    ensures forall j :: 0 <= j < |p.chunks| ==>
              PyList(p)[2 * j] == p.chunks[j].text && PyList(p)[2 * j + 1] == p.chunks[j].run
    ensures PyList(p)[2 * |p.chunks|] == p.tail
    decreases |p.chunks|
  {
    if p.chunks != [] {
      var q := Parts(p.chunks[1..], p.tail);
      PyListIndex(q);
      var l := PyList(p);
      assert l == [p.chunks[0].text, p.chunks[0].run] + PyList(q);
      forall j | 1 <= j < |p.chunks|
        ensures l[2 * j] == p.chunks[j].text && l[2 * j + 1] == p.chunks[j].run
      {
        assert l[2 * j] == PyList(q)[2 * (j - 1)];
        assert l[2 * j + 1] == PyList(q)[2 * (j - 1) + 1];
      }
    }
  }

  /** A buffer splits into no chunk exactly when it holds no terminator, and is then its own tail. */
  lemma SplitSingle(s: string)
    ensures Split(s).chunks == [] <==> NoTerminator(s)
    ensures Split(s).chunks == [] ==> Split(s).tail == s
  {
    var t := TextLength(s);
    if t == |s| {
      assert NoTerminator(s);
    } else {
      assert !NoTerminator(s);
    }
  }

  /** The text of the first chunk is the longest terminator-free prefix. */
  lemma SplitHead(s: string)
    ensures Split(s).chunks != [] ==> Split(s).chunks[0].text == s[..TextLength(s)]
  {
  }

  /** The shape of a chunk: a terminator-free text and a non-empty run of terminators. */
  predicate ChunkOk(c: Chunk) {
    NoTerminator(c.text) && c.run != [] && AllTerminators(c.run)
  }

  /**
   * What a correct split of `s` looks like, independently of how it is computed:
   * the parts join back to `s`, every chunk has the shape of `ChunkOk`, the trailing
   * fragment holds no terminator, and no text except the first is empty, so that
   * every run is maximal.
   */
  predicate IsSplitOf(p: Parts, s: string) {
    && Joined(p) == s
    && (forall j :: 0 <= j < |p.chunks| ==> ChunkOk(p.chunks[j]))
    && (forall j :: 0 < j < |p.chunks| ==> p.chunks[j].text != [])
    && NoTerminator(p.tail)
  }

  /** Putting one chunk in front of parts puts its text and run in front of what they spell. */
  lemma JoinedCons(c: Chunk, q: Parts)
    ensures Joined(Parts([c] + q.chunks, q.tail)) == c.text + c.run + Joined(q)
  {
    var l := Sentences([c] + q.chunks);
    assert l == [Sentence(c)] + Sentences(q.chunks) by {
      assert ([c] + q.chunks)[1..] == q.chunks;
    }
    assert l[0] == Sentence(c);
    assert l[1..] == Sentences(q.chunks);
    var j := Join(Sentences(q.chunks));
    assert Join(l) == c.text + c.run + j;
    assert c.text + c.run + j + q.tail == c.text + c.run + (j + q.tail);
  }

  /** One step of `Split`: the first text piece, the run after it, and what follows. */
  lemma SplitStep(s: string) returns (a: string, b: string, rest: string)
    requires !NoTerminator(s)
    ensures Split(s) == Parts([Chunk(a, b)] + Split(rest).chunks, Split(rest).tail)
    ensures s == a + b + rest
    ensures ChunkOk(Chunk(a, b))
    ensures rest == [] || !IsTerminator(rest[0])
  {
    var t := TextLength(s);
    var i :| 0 <= i < |s| && IsTerminator(s[i]);
    assert t <= i;
    var x := s[t..];
    var n := RunLength(x);
    a, b, rest := s[..t], x[..n], x[n..];
    CutTwice(s, t, n);
    TextPrefix(s);
    RunPrefix(x);
  }

  lemma TextPrefix(s: string)
    ensures NoTerminator(s[..TextLength(s)])
  {
  }

  /** The run at the start of `x` is non-empty when `x` starts with a terminator, and what follows does not. */
  lemma RunPrefix(x: string)
    ensures x != [] && IsTerminator(x[0]) ==> x[..RunLength(x)] != []
    ensures AllTerminators(x[..RunLength(x)])
    ensures x[RunLength(x)..] == [] || !IsTerminator(x[RunLength(x)..][0])
  {
  }

  /** Cutting `s` at `t` and the remainder at `n` loses nothing. */
  lemma CutTwice(s: string, t: nat, n: nat)
    requires t <= |s| && n <= |s| - t
    ensures s == s[..t] + s[t..][..n] + s[t..][n..]
  {
    var x := s[t..];
    assert s == s[..t] + x;
    assert x == x[..n] + x[n..];
    assert s[..t] + (x[..n] + x[n..]) == s[..t] + x[..n] + x[n..];
  }

  /** The parts of `Split(s)` have the shape described by `IsSplitOf`. */
  lemma {:induction false} SplitIsSplitOf(s: string)
    ensures IsSplitOf(Split(s), s)
    decreases |s|
  {
    if NoTerminator(s) {
      SplitSingle(s);
    } else {
      var a, b, rest := SplitStep(s);
      SplitIsSplitOf(rest);
      var q := Split(rest);
      SplitHead(rest);
      SplitSingle(rest);
      assert q.chunks != [] ==> rest != [] && TextLength(rest) > 0;
      ConsIsSplitOf(a, b, q, rest);
    }
  }

  /** Putting a chunk in front of a split of `rest` gives a split of the whole. */
  lemma ConsIsSplitOf(a: string, b: string, q: Parts, rest: string)
    requires ChunkOk(Chunk(a, b))
    requires IsSplitOf(q, rest)
    requires q.chunks != [] ==> q.chunks[0].text != []
    ensures IsSplitOf(Parts([Chunk(a, b)] + q.chunks, q.tail), a + b + rest)
  {
    var cs := [Chunk(a, b)] + q.chunks;
    JoinedCons(Chunk(a, b), q);
    forall j | 1 <= j < |cs|
      ensures cs[j] == q.chunks[j - 1]
    {
    }
  }

  /** The first character of a split's text, when it has one, is not a terminator. */
  lemma JoinedStart(q: Parts, rest: string)
    requires IsSplitOf(q, rest)
    requires q.chunks != [] ==> q.chunks[0].text != []
    ensures rest == [] || !IsTerminator(rest[0])
  {
    if q.chunks == [] {
      assert Sentences(q.chunks) == [];
      assert rest == q.tail;
    } else {
      var c := q.chunks[0];
      var q' := Parts(q.chunks[1..], q.tail);
      assert q == Parts([c] + q'.chunks, q'.tail);
      JoinedCons(c, q');
      assert ChunkOk(c);
      assert rest[0] == c.text[0];
    }
  }

  /** `TextLength` finds the end of a terminator-free prefix followed by a terminator. */
  lemma {:induction false} TextLengthOfConcat(a: string, x: string)
    requires NoTerminator(a) && x != [] && IsTerminator(x[0])
    ensures TextLength(a + x) == |a|
  {
    if a == [] {
      assert a + x == x;
    } else {
      assert (a + x)[0] == a[0];
      assert (a + x)[1..] == a[1..] + x;
      TextLengthOfConcat(a[1..], x);
    }
  }

  /** `RunLength` finds the end of a run followed by a non-terminator or by nothing. */
  lemma {:induction false} RunLengthOfConcat(b: string, y: string)
    requires AllTerminators(b) && (y == [] || !IsTerminator(y[0]))
    ensures RunLength(b + y) == |b|
  {
    if b == [] {
      assert b + y == y;
    } else {
      assert (b + y)[0] == b[0];
      assert (b + y)[1..] == b[1..] + y;
      RunLengthOfConcat(b[1..], y);
    }
  }

  /** `Split` of a text piece, a maximal run and the rest starts with that chunk. */
  lemma SplitOfCons(a: string, b: string, rest: string)
    requires ChunkOk(Chunk(a, b))
    requires rest == [] || !IsTerminator(rest[0])
    ensures Split(a + b + rest) == Parts([Chunk(a, b)] + Split(rest).chunks, Split(rest).tail)
  {
    var s := a + b + rest;
    assert a + (b + rest) == s;
    TextLengthOfConcat(a, b + rest);
    RunLengthOfConcat(b, rest);
    var x := b + rest;
    assert s[|a|..] == x;
    assert s[..|a|] == a;
    assert x[..|b|] == b;
    assert x[|b|..] == rest;
  }

  /** A split is unique: any parts of the described shape are the ones `re.split` returns. */
  lemma {:induction false} SplitUnique(p: Parts, s: string)
    requires IsSplitOf(p, s)
    ensures p == Split(s)
    decreases |s|
  {
    if p.chunks == [] {
      assert Sentences(p.chunks) == [];
      assert s == p.tail;
      SplitSingle(s);
    } else {
      var c := p.chunks[0];
      var q := Parts(p.chunks[1..], p.tail);
      var rest := Joined(q);
      assert p == Parts([c] + q.chunks, q.tail);
      JoinedCons(c, q);
      assert ChunkOk(c);
      assert IsSplitOf(q, rest) by {
        forall j | 0 <= j < |q.chunks|
          ensures q.chunks[j] == p.chunks[j + 1]
        {
        }
      }
      assert q.chunks != [] ==> q.chunks[0].text != [] by {
        assert q.chunks != [] ==> q.chunks[0] == p.chunks[1];
      }
      JoinedStart(q, rest);
      SplitOfCons(c.text, c.run, rest);
      SplitUnique(q, rest);
    }
  }

  predicate EndsWithTerminator(x: string) {
    |x| > 0 && IsTerminator(x[|x| - 1])
  }

  /** Every sentence the loop visits is a terminator-free text closed by a run, so it ends with a terminator. */
  lemma SentencesOfSplit(s: string)
    ensures forall j :: 0 <= j < |Split(s).chunks| ==> ChunkOk(Split(s).chunks[j])
    ensures forall j :: 0 <= j < |Split(s).chunks| ==> EndsWithTerminator(Sentence(Split(s).chunks[j]))
  {
    SplitIsSplitOf(s);
    var p := Split(s);
    forall j | 0 <= j < |p.chunks|
      ensures EndsWithTerminator(Sentence(p.chunks[j]))
    {
      var c := p.chunks[j];
      assert ChunkOk(c);
      assert Sentence(c)[|Sentence(c)| - 1] == c.run[|c.run| - 1];
    }
  }

  /**
   * No sentence the loop visits is whitespace only: each ends with a terminator,
   * which is not whitespace.
   */
  lemma NoBlankSentence(s: string)
    ensures forall j :: 0 <= j < |Split(s).chunks| ==> !IsBlank(Sentence(Split(s).chunks[j]))
  {
    SentencesOfSplit(s);
    forall j | 0 <= j < |Split(s).chunks|
      ensures !IsBlank(Sentence(Split(s).chunks[j]))
    {
      var x := Sentence(Split(s).chunks[j]);
      assert EndsWithTerminator(x);
      assert !IsSpace(x[|x| - 1]);
    }
  }

  /**
   * The buffer is exactly its sentences followed by the trailing fragment, and the
   * trailing fragment contains no terminator: nothing is lost or invented by the split.
   */
  lemma BufferDecomposition(s: string)
    ensures Join(Sentences(Split(s).chunks)) + Split(s).tail == s
    ensures NoTerminator(Split(s).tail)
  {
    SplitIsSplitOf(s);
  }

  /** A buffer without terminator splits into itself alone: nothing to speak, nothing consumed. */
  lemma NoTerminatorNoSentence(s: string)
    requires NoTerminator(s)
    ensures Split(s) == Parts([], s)
  {
    SplitSingle(s);
  }
}
