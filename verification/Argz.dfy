/** Argument vectors: strings packed one after another in a buffer, each ended by a NUL.
    Positions stand for pointers into the buffer; no position is the null pointer. */
module Argz {
  datatype Pointer = Null | To(pos: nat)

  const NUL := '\0'

  /** The buffer is empty or its last entry is ended. */
  predicate Terminated(buf: string) {
    buf == [] || buf[|buf| - 1] == NUL
  }

  /** Search for the ending NUL from a position inside the buffer. */
  function FindNul(buf: string, from: nat): (k: nat)
    requires Terminated(buf) && from < |buf|
    ensures from <= k < |buf| && buf[k] == NUL
    ensures forall j :: from <= j < k ==> buf[j] != NUL
    decreases |buf| - from
  {
    if buf[from] == NUL then from else FindNul(buf, from + 1)
  }

  /** The iteration step: past the current entry's NUL, and null at the end of the buffer. */
  function Next(buf: string, entry: Pointer): Pointer
    requires Terminated(buf)
  {
    if entry.To? then
      var e := if entry.pos < |buf| then FindNul(buf, entry.pos) + 1 else entry.pos;
      if e >= |buf| then Null else To(e)
    else if |buf| > 0 then To(0) else Null
  }

  /** A position where an entry begins. */
  predicate IsStart(buf: string, p: nat) {
    p < |buf| && (p == 0 || buf[p - 1] == NUL)
  }

  /** Next is the nearest entry start after the given position, for every position, and null
      exactly when there is none. */
  lemma NextIsLeastStart(buf: string, entry: Pointer)
    requires Terminated(buf)
    ensures var from := if entry.Null? then 0 else entry.pos + 1;
            match Next(buf, entry)
            case To(p) => IsStart(buf, p) && p >= from && forall q :: from <= q < p ==> !IsStart(buf, q)
            case Null => forall q :: from <= q ==> !IsStart(buf, q)
  {
    if entry.To? && entry.pos < |buf| {
      var k := FindNul(buf, entry.pos);
      forall q | entry.pos + 1 <= q < k + 1 ensures !IsStart(buf, q) {
        assert buf[q - 1] != NUL;
      }
    }
  }

  /** The entries joined back, each with its NUL. */
  function Join(entries: seq<string>): string {
    if entries == [] then [] else Join(entries[..|entries| - 1]) + entries[|entries| - 1] + [NUL]
  }

  predicate NulFree(entries: seq<string>) {
    forall i :: 0 <= i < |entries| ==> NUL !in entries[i]
  }

  function Count(buf: string): nat {
    if buf == [] then 0 else Count(buf[..|buf| - 1]) + if buf[|buf| - 1] == NUL then 1 else 0
  }

  lemma {:induction false} CountConcat(a: string, b: string)
    ensures Count(a + b) == Count(a) + Count(b)
  {
    if b == [] {
      assert a + b == a;
    } else {
      assert (a + b)[..|a + b| - 1] == a + b[..|b| - 1];
      CountConcat(a, b[..|b| - 1]);
    }
  }

  lemma {:induction false} CountNone(a: string)
    requires NUL !in a
    ensures Count(a) == 0
  {
    if a != [] {
      assert a[|a| - 1] in a;
      CountNone(a[..|a| - 1]);
    }
  }

  lemma JoinSnoc(entries: seq<string>, e: string)
    ensures Join(entries + [e]) == Join(entries) + e + [NUL]
  {
    assert (entries + [e])[..|entries|] == entries;
  }

  lemma JoinTwo(d: string, e: string)
    ensures Join([d, e]) == d + ['\0'] + e + ['\0']
  {
    JoinSnoc([], d);
    JoinSnoc([d], e);
    assert [] + [d] == [d] && [d] + [e] == [d, e];
    assert Join([]) == [];
  }

  /** e, ended by a NUL, stands at position p. */
  predicate HasEntry(buf: string, p: nat, e: string) {
    p + |e| < |buf| && buf[p..p + |e|] == e && buf[p + |e|] == NUL
  }

  /** A joined list holds one NUL per entry. */
  lemma {:induction false} JoinCount(entries: seq<string>)
    requires NulFree(entries)
    ensures Count(Join(entries)) == |entries| && Terminated(Join(entries))
  {
    if entries != [] {
      var n := |entries| - 1;
      JoinCount(entries[..n]);
      CountConcat(Join(entries[..n]) + entries[n], [NUL]);
      CountConcat(Join(entries[..n]), entries[n]);
      CountNone(entries[n]);
      assert Count([NUL]) == 1 by { assert [NUL][..0] == []; }
    }
  }

  /** The entries below limit, with their positions: each start once, in increasing order,
      and joined they are the buffer up to limit. */
  ghost predicate Visited(buf: string, entries: seq<string>, starts: seq<nat>, limit: nat) {
    && |entries| == |starts| && limit <= |buf|
    && NulFree(entries) && Join(entries) == buf[..limit]
    && (forall i, j :: 0 <= i < j < |starts| ==> starts[i] < starts[j])
    && (forall p: nat :: p in starts <==> IsStart(buf, p) && p < limit)
    && (forall i :: 0 <= i < |entries| ==> HasEntry(buf, starts[i], entries[i]))
  }

  lemma VisitEntry(buf: string, entries: seq<string>, starts: seq<nat>, p: nat)
    requires Terminated(buf) && IsStart(buf, p) && Visited(buf, entries, starts, p)
    ensures var k := FindNul(buf, p); Visited(buf, entries + [buf[p..k]], starts + [p], k + 1)
  {
    hide Join;
    var k := FindNul(buf, p);
    var ss := starts + [p];
    JoinSnoc(entries, buf[p..k]);
    assert buf[..p] + buf[p..k] + [NUL] == buf[..k + 1];
    forall i, j | 0 <= i < j < |ss| ensures ss[i] < ss[j] {
      assert ss[i] in starts;
    }
    forall q: nat ensures q in ss <==> IsStart(buf, q) && q < k + 1 {
      assert q in ss <==> q in starts || q == p;
      assert p < q < k + 1 ==> buf[q - 1] != NUL;
    }
  }

  /** The iteration loop: from the null pointer until null comes back, every entry once. */
  method Entries(buf: string) returns (entries: seq<string>, starts: seq<nat>)
    requires Terminated(buf)
    ensures Visited(buf, entries, starts, |buf|)
    ensures |entries| == Count(buf)
  {
    entries, starts := [], [];
    assert Visited(buf, [], [], 0);
    hide Visited, Count, Join;
    var entry := Next(buf, Null);
    while entry.To?
      invariant entry.To? ==> IsStart(buf, entry.pos)
      invariant Visited(buf, entries, starts, if entry.To? then entry.pos else |buf|)
      decreases if entry.To? then |buf| - entry.pos + 1 else 0
    {
      var k := FindNul(buf, entry.pos);
      VisitEntry(buf, entries, starts, entry.pos);
      entries := entries + [buf[entry.pos..k]];
      starts := starts + [entry.pos];
      entry := Next(buf, entry);
    }
    VisitedCount(buf, entries, starts);
  }

  lemma VisitedCount(buf: string, entries: seq<string>, starts: seq<nat>)
    requires Visited(buf, entries, starts, |buf|)
    ensures |entries| == Count(buf)
  {
    JoinCount(entries);
    assert buf[..|buf|] == buf;
  }

  /** A buffer has only one decomposition, so the loop gives back any list that was packed. */
  lemma {:induction false} JoinInjective(es: seq<string>, fs: seq<string>)
    requires NulFree(es) && NulFree(fs) && Join(es) == Join(fs)
    ensures es == fs
  {
    if es != [] && fs != [] {
      var m, n := |es| - 1, |fs| - 1;
      var a, b := Join(es[..m]) + es[m], Join(fs[..n]) + fs[n];
      assert a + [NUL] == Join(es) == Join(fs) == b + [NUL];
      assert a == (a + [NUL])[..|a|] == (b + [NUL])[..|b|] == b;
      JoinCount(es[..m]);
      JoinCount(fs[..n]);
      LastEntry(Join(es[..m]), es[m], Join(fs[..n]), fs[n]);
      JoinInjective(es[..m], fs[..n]);
      assert es == es[..m] + [es[m]] && fs == fs[..n] + [fs[n]];
    }
  }

  lemma LastEntry(p: string, e: string, q: string, f: string)
    requires Terminated(p) && Terminated(q) && NUL !in e && NUL !in f && p + e == q + f
    ensures p == q && e == f
  {
    var s := p + e;
    assert s == q + f;
    assert p == s[..|p|] && q == s[..|q|] && e == s[|p|..] && f == s[|q|..];
  }

  /** Packing a list and iterating over the buffer gives the list back. */
  lemma PackThenIterate(es: seq<string>, entries: seq<string>, starts: seq<nat>)
    requires NulFree(es) && Visited(Join(es), entries, starts, |Join(es)|)
    ensures entries == es
  {
    assert Join(es)[..|Join(es)|] == Join(es);
    JoinInjective(entries, es);
  }
}
