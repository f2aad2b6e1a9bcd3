/** Lists of filter tokens: first-occurrence deduplication (Python's `list(dict.fromkeys(xs))`) and token-wise
    conversion, with the algebra that makes conversions between portals compose. */
module FilterLists {
  import opened Seqs

  type Token = string

  function Front(xs: seq<Token>): seq<Token>
    requires xs != []
  {
    xs[..|xs| - 1]
  }

  function End(xs: seq<Token>): Token
    requires xs != []
  {
    xs[|xs| - 1]
  }

  function Dedup(xs: seq<Token>): seq<Token> {
    if xs == [] then [] else
      var kept := Dedup(Front(xs));
      if End(xs) in kept then kept else kept + [End(xs)]
  }

  /** Every token replaced by a run of tokens. */
  function FlatMap(f: Token -> seq<Token>, xs: seq<Token>): seq<Token> {
    if xs == [] then [] else FlatMap(f, Front(xs)) + f(End(xs))
  }

  function Compose(g: Token -> seq<Token>, f: Token -> seq<Token>): Token -> seq<Token> {
    t => FlatMap(g, f(t))
  }

  /** A loop that deduplicates with one pass computes Dedup. */
  method DedupList(xs: seq<Token>) returns (kept: seq<Token>)
    ensures kept == Dedup(xs)
  {
    kept := [];
    for i := 0 to |xs|
      invariant kept == Dedup(xs[..i])
    {
      assert Front(xs[..i + 1]) == xs[..i];
      if xs[i] !in kept {
        kept := kept + [xs[i]];
      }
    }
    assert xs[..|xs|] == xs;
  }

  lemma {:induction false} DedupMembers(xs: seq<Token>)
    ensures forall t :: t in Dedup(xs) <==> t in xs
  {
    if xs != [] {
      DedupMembers(Front(xs));
      assert xs == Front(xs) + [End(xs)];
    }
  }

  lemma DedupAppend(xs: seq<Token>, t: Token)
    ensures Dedup(xs + [t]) == if t in xs then Dedup(xs) else Dedup(xs) + [t]
  {
    assert Front(xs + [t]) == xs;
    DedupMembers(xs);
  }

  lemma FrontEnd(xs: seq<Token>)
    requires xs != []
    ensures xs == Front(xs) + [End(xs)]
  {
  }

  lemma AppendEnd(xs: seq<Token>, ys: seq<Token>)
    requires ys != []
    ensures xs + ys == (xs + Front(ys)) + [End(ys)]
  {
  }

  /** Deduplicating the left part first changes nothing. */
  lemma {:induction false} DedupLeft(xs: seq<Token>, ys: seq<Token>)
    ensures Dedup(Dedup(xs) + ys) == Dedup(xs + ys)
  {
    if ys == [] {
      assert Dedup(xs) + ys == Dedup(xs) && xs + ys == xs;
      DedupIdempotent(xs);
    } else {
      DedupLeft(xs, Front(ys));
      AppendEnd(Dedup(xs), ys);
      AppendEnd(xs, ys);
      DedupAppend(Dedup(xs) + Front(ys), End(ys));
      DedupAppend(xs + Front(ys), End(ys));
      DedupMembers(xs);
    }
  }

  lemma {:induction false} DedupIdempotent(xs: seq<Token>)
    ensures Dedup(Dedup(xs)) == Dedup(xs)
  {
    if xs != [] {
      DedupIdempotent(Front(xs));
      if End(xs) !in Dedup(Front(xs)) {
        DedupAppend(Dedup(Front(xs)), End(xs));
      }
    }
  }

  /** Deduplicating the right part first changes nothing either. */
  lemma {:induction false} DedupRight(xs: seq<Token>, ys: seq<Token>)
    ensures Dedup(xs + Dedup(ys)) == Dedup(xs + ys)
  {
    if ys != [] {
      DedupRight(xs, Front(ys));
      FrontEnd(ys);
      assert xs + ys == (xs + Front(ys)) + [End(ys)];
      DedupAppend(xs + Front(ys), End(ys));
      DedupMembers(Front(ys));
      if End(ys) !in Front(ys) {
        assert xs + Dedup(ys) == (xs + Dedup(Front(ys))) + [End(ys)];
        DedupAppend(xs + Dedup(Front(ys)), End(ys));
      }
    }
  }

  /** Appending tokens that are already there changes nothing. */
  lemma {:induction false} DedupAbsorb(xs: seq<Token>, ys: seq<Token>)
    requires forall t :: t in ys ==> t in xs
    ensures Dedup(xs + ys) == Dedup(xs)
  {
    if ys == [] {
      assert xs + ys == xs;
    } else {
      FrontEnd(ys);
      DedupAbsorb(xs, Front(ys));
      assert xs + ys == (xs + Front(ys)) + [End(ys)];
      DedupAppend(xs + Front(ys), End(ys));
    }
  }

  /** Distinct tokens are left alone. */
  lemma {:induction false} DedupOfDistinct(xs: seq<Token>)
    requires forall i, j :: 0 <= i < j < |xs| ==> xs[i] != xs[j]
    ensures Dedup(xs) == xs
  {
    if xs != [] {
      DedupOfDistinct(Front(xs));
      FrontEnd(xs);
    }
  }

  lemma {:induction false} FlatMapMembers(f: Token -> seq<Token>, xs: seq<Token>, t: Token, u: Token)
    requires t in xs && u in f(t)
    ensures u in FlatMap(f, xs)
  {
    if t != End(xs) {
      FrontEnd(xs);
      FlatMapMembers(f, Front(xs), t, u);
    }
  }

  lemma {:induction false} FlatMapSource(f: Token -> seq<Token>, xs: seq<Token>, u: Token) returns (t: Token)
    requires u in FlatMap(f, xs)
    ensures t in xs && u in f(t)
  {
    if u in f(End(xs)) {
      t := End(xs);
    } else {
      t := FlatMapSource(f, Front(xs), u);
    }
  }

  lemma FlatMapAppend(f: Token -> seq<Token>, xs: seq<Token>, t: Token)
    ensures FlatMap(f, xs + [t]) == FlatMap(f, xs) + f(t)
  {
    assert Front(xs + [t]) == xs;
  }

  lemma {:induction false} FlatMapConcat(f: Token -> seq<Token>, xs: seq<Token>, ys: seq<Token>)
    ensures FlatMap(f, xs + ys) == FlatMap(f, xs) + FlatMap(f, ys)
  {
    if ys == [] {
      assert xs + ys == xs;
    } else {
      FlatMapConcat(f, xs, Front(ys));
      FrontEnd(ys);
      assert xs + ys == (xs + Front(ys)) + [End(ys)];
      FlatMapAppend(f, xs + Front(ys), End(ys));
    }
  }

  lemma {:induction false} FlatMapCompose(g: Token -> seq<Token>, f: Token -> seq<Token>, xs: seq<Token>)
    ensures FlatMap(g, FlatMap(f, xs)) == FlatMap(Compose(g, f), xs)
  {
    if xs != [] {
      FlatMapCompose(g, f, Front(xs));
      FlatMapConcat(g, FlatMap(f, Front(xs)), f(End(xs)));
    }
  }

  /** Converting a list or its deduplication gives the same deduplicated result. */
  lemma {:induction false} DedupThroughMap(g: Token -> seq<Token>, ys: seq<Token>)
    ensures Dedup(FlatMap(g, Dedup(ys))) == Dedup(FlatMap(g, ys))
  {
    if ys != [] {
      var zs, y := Front(ys), End(ys);
      DedupThroughMap(g, zs);
      DedupMembers(zs);
      DedupLeft(FlatMap(g, zs), g(y));
      DedupLeft(FlatMap(g, Dedup(zs)), g(y));
      if y in zs {
        forall u | u in g(y) ensures u in FlatMap(g, Dedup(zs)) { FlatMapMembers(g, Dedup(zs), y, u); }
        DedupAbsorb(FlatMap(g, Dedup(zs)), g(y));
      } else {
        FlatMapAppend(g, Dedup(zs), y);
      }
    }
  }

  /** Two conversions that agree up to duplicates on every token of a list agree on the list. */
  lemma {:induction false} DedupPointwise(f: Token -> seq<Token>, g: Token -> seq<Token>, xs: seq<Token>)
    requires forall t :: t in xs ==> Dedup(f(t)) == Dedup(g(t))
    ensures Dedup(FlatMap(f, xs)) == Dedup(FlatMap(g, xs))
  {
    if xs != [] {
      var ys, t := Front(xs), End(xs);
      FrontEnd(xs);
      DedupPointwise(f, g, ys);
      DedupLeft(FlatMap(f, ys), f(t));
      DedupLeft(FlatMap(g, ys), g(t));
      DedupRight(Dedup(FlatMap(f, ys)), f(t));
      DedupRight(Dedup(FlatMap(g, ys)), g(t));
    }
  }

  /** There and back: converting with f, deduplicating or not, and then with g is one conversion. */
  lemma ThereAndBack(f: Token -> seq<Token>, g: Token -> seq<Token>, xs: seq<Token>)
    ensures Dedup(FlatMap(g, Dedup(FlatMap(f, xs)))) == Dedup(FlatMap(Compose(g, f), xs))
    ensures Dedup(FlatMap(g, FlatMap(f, xs))) == Dedup(FlatMap(Compose(g, f), xs))
  {
    DedupThroughMap(g, FlatMap(f, xs));
    FlatMapCompose(g, f, xs);
  }

  function Keep(supported: Token -> bool): Token -> seq<Token> {
    t => if supported(t) then [t] else []
  }

  lemma {:induction false} KeepIsFilter(supported: Token -> bool, xs: seq<Token>)
    ensures FlatMap(Keep(supported), xs) == Filter(supported, xs)
  {
    if xs != [] {
      KeepIsFilter(supported, Front(xs));
      FrontEnd(xs);
      FilterConcat(supported, Front(xs), [End(xs)]);
    }
  }

  /** The tokens of `xs` that are supported, each once, in order of first occurrence. */
  function Supported(supported: Token -> bool, xs: seq<Token>): seq<Token> {
    Dedup(Filter(supported, xs))
  }

  /** If g undoes f on the supported tokens and f drops the others, going there and back keeps exactly the
      supported tokens, deduplicated. */
  lemma RoundTrip(f: Token -> seq<Token>, g: Token -> seq<Token>, supported: Token -> bool, xs: seq<Token>)
    requires forall t :: t in xs ==> Dedup(FlatMap(g, f(t))) == if supported(t) then [t] else []
    ensures Dedup(FlatMap(g, Dedup(FlatMap(f, xs)))) == Supported(supported, xs)
    ensures Dedup(FlatMap(g, FlatMap(f, xs))) == Supported(supported, xs)
  {
    ThereAndBack(f, g, xs);
    forall t | t in xs ensures Dedup(Compose(g, f)(t)) == Dedup(Keep(supported)(t)) {
      assert Dedup(FlatMap(g, f(t))) == if supported(t) then [t] else [];
      DedupAppend([], t);
      assert [] + [t] == [t];
    }
    DedupPointwise(Compose(g, f), Keep(supported), xs);
    KeepIsFilter(supported, xs);
  }

  /** A coarsening whose outputs it maps to themselves is idempotent on lists. */
  lemma CoarseningIsIdempotent(h: Token -> seq<Token>, xs: seq<Token>)
    requires forall t, u :: t in xs && u in h(t) ==> Dedup(h(u)) == [u]
    ensures Dedup(FlatMap(h, Dedup(FlatMap(h, xs)))) == Dedup(FlatMap(h, xs))
  {
    var ys := FlatMap(h, xs);
    DedupThroughMap(h, ys);
    forall u | u in ys ensures Dedup(h(u)) == Dedup(Keep(_ => true)(u)) {
      var t := FlatMapSource(h, xs, u);
      DedupAppend([], u);
      assert [] + [u] == [u];
    }
    DedupPointwise(h, Keep(_ => true), ys);
    KeepIsFilter(_ => true, ys);
    FilterAll(_ => true, ys);
  }

  lemma {:induction false} DedupOfCopies(ts: seq<Token>, target: Token)
    requires ts != [] && forall i :: 0 <= i < |ts| ==> ts[i] == target
    ensures Dedup(ts) == [target]
  {
    if |ts| > 1 {
      DedupOfCopies(Front(ts), target);
    } else {
      assert Front(ts) == [];
    }
  }

  /** Several tokens that all go back to one token. */
  lemma SameTarget(g: Token -> seq<Token>, ts: seq<Token>, target: Token)
    requires ts != [] && forall t :: t in ts ==> g(t) == [target]
    ensures Dedup(FlatMap(g, ts)) == [target]
  {
    forall i | 0 <= i < |FlatMap(g, ts)| ensures FlatMap(g, ts)[i] == target {
      var t := FlatMapSource(g, ts, FlatMap(g, ts)[i]);
    }
    FlatMapMembers(g, ts, ts[0], target);
    DedupOfCopies(FlatMap(g, ts), target);
  }
}
