/** Parsers that take one byte at a time and may return something after each, run over whole strings. */
module ByteFeed {
  import opened Words
  import opened Wrappers

  /** What a byte does to a parser, and what it returns. */
  type Feed<!P, !F> = (P, bv8) -> (P, Option<F>)

  function Run<P, F>(feed: Feed<P, F>, p: P, bytes: Octets): (P, seq<F>)
    decreases |bytes|
  {
    if bytes == [] then (p, [])
    else
      var (q, r) := feed(p, bytes[0]);
      var (e, fs) := Run(feed, q, bytes[1..]);
      (e, if r.Some? then [r.value] + fs else fs)
  }

  lemma RunNothing<P, F>(feed: Feed<P, F>, p: P)
    ensures Run(feed, p, []) == (p, [])
  { }

  lemma RunOne<P, F>(feed: Feed<P, F>, p: P, b: bv8, rest: Octets)
    ensures var (q, r) := feed(p, b);
      Run(feed, p, [b] + rest)
        == (Run(feed, q, rest).0, if r.Some? then [r.value] + Run(feed, q, rest).1 else Run(feed, q, rest).1)
  { }

  lemma {:induction false} RunConcat<P, F>(feed: Feed<P, F>, p: P, a: Octets, b: Octets)
    ensures var (q, fs) := Run(feed, p, a);
      var (e, gs) := Run(feed, q, b);
      Run(feed, p, a + b) == (e, fs + gs)
    decreases |a|
  {
    if a == [] {
      assert a + b == b;
      assert [] + Run(feed, p, b).1 == Run(feed, p, b).1;
    } else {
      assert (a + b)[1..] == a[1..] + b;
      var (q, r) := feed(p, a[0]);
      RunConcat(feed, q, a[1..], b);
      var (m, fs) := Run(feed, q, a[1..]);
      var gs := Run(feed, m, b).1;
      if r.Some? {
        assert [r.value] + fs + gs == [r.value] + (fs + gs);
      }
    }
  }

  /** What a printer makes of a list. */
  function EncodedAll<F>(encode: F -> Octets, fs: seq<F>): Octets {
    if fs == [] then [] else encode(fs[0]) + EncodedAll(encode, fs[1..])
  }
}
