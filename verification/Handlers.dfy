/** Joining connection handlers (conn_handler.go: JoinConnHandlers). An event map is an object, because Go maps
    are shared by reference. */
module Handlers {
  import opened Text

  /** The identity of a callback. */
  type Callback = nat
  type EventMap = map<Bytes, Callback>

  class Events {
    var callbacks: EventMap

    constructor ()
      ensures callbacks == map[]
    {
      callbacks := map[];
    }
  }

  /** The namespaces of one handler; nil event maps are possible. */
  type Namespaces = map<Bytes, Events?>

  ghost function Contents(nss: Namespaces): (r: map<Bytes, EventMap>)
    reads nss.Values
  {
    map n | n in nss && nss[n] != null :: nss[n].callbacks
  }

  /** The right-biased union per namespace. */
  ghost function Merge(x: map<Bytes, EventMap>, y: map<Bytes, EventMap>): map<Bytes, EventMap> {
    map n | n in x.Keys + y.Keys ::
      if n !in x then y[n] else if n !in y then x[n] else x[n] + y[n]
  }

  ghost function MergeAll(xs: seq<map<Bytes, EventMap>>): map<Bytes, EventMap> {
    if xs == [] then map[] else Merge(MergeAll(xs[..|xs| - 1]), xs[|xs| - 1])
  }

  lemma MergeAssociativeAt(x: map<Bytes, EventMap>, y: map<Bytes, EventMap>, z: map<Bytes, EventMap>, n: Bytes)
    ensures var l, r := Merge(Merge(x, y), z), Merge(x, Merge(y, z));
            (n in l <==> n in r) && (n in l ==> l[n] == r[n])
  {
    if n in x && n in y && n in z { assert (x[n] + y[n]) + z[n] == x[n] + (y[n] + z[n]); }
  }

  lemma MergeAssociative(x: map<Bytes, EventMap>, y: map<Bytes, EventMap>, z: map<Bytes, EventMap>)
    ensures Merge(Merge(x, y), z) == Merge(x, Merge(y, z))
  {
    forall n: Bytes
      ensures var l, r := Merge(Merge(x, y), z), Merge(x, Merge(y, z));
              (n in l <==> n in r) && (n in l ==> l[n] == r[n])
    {
      MergeAssociativeAt(x, y, z, n);
    }
  }

  lemma MergeExtend(x: map<Bytes, EventMap>, y: map<Bytes, EventMap>, n: Bytes, events: EventMap)
    requires n !in y
    ensures Merge(x, y[n := events]) == Merge(x, y)[n := if n in x then x[n] + events else events]
  {
  }

  lemma MergeStep(x: map<Bytes, EventMap>, source: map<Bytes, EventMap>, rest: set<Bytes>, n: Bytes)
    requires n in rest && rest <= source.Keys
    ensures var sofar := Merge(x, source - rest);
            && (n in sofar <==> n in x) && (n in x ==> sofar[n] == x[n])
            && Merge(x, source - (rest - {n})) == sofar[n := if n in x then x[n] + source[n] else source[n]]
  {
    assert source - (rest - {n}) == (source - rest)[n := source[n]];
    MergeExtend(x, source - rest, n, source[n]);
  }

  /** Joining in groups is joining at once. */
  lemma {:induction false} MergeAllConcat(xs: seq<map<Bytes, EventMap>>, ys: seq<map<Bytes, EventMap>>)
    ensures MergeAll(xs + ys) == Merge(MergeAll(xs), MergeAll(ys))
  {
    if ys == [] {
      assert xs + ys == xs;
      assert Merge(MergeAll(xs), map[]) == MergeAll(xs);
    } else {
      var init, last := ys[..|ys| - 1], ys[|ys| - 1];
      assert (xs + ys)[..|xs + ys| - 1] == xs + init;
      MergeAllConcat(xs, init);
      MergeAssociative(MergeAll(xs), MergeAll(init), last);
    }
  }

  predicate Has(x: map<Bytes, EventMap>, n: Bytes, event: Bytes) {
    n in x && event in x[n]
  }

  /** The callback of an event is the one of the last handler that has the event in that namespace, and no event or
      namespace comes from anywhere else. */
  lemma {:induction false} LastWins(xs: seq<map<Bytes, EventMap>>, n: Bytes, event: Bytes)
    ensures n in MergeAll(xs) <==> exists i | 0 <= i < |xs| :: n in xs[i]
    ensures Has(MergeAll(xs), n, event) <==> exists i | 0 <= i < |xs| :: Has(xs[i], n, event)
    ensures forall i | 0 <= i < |xs| && Has(xs[i], n, event) && (forall j | i < j < |xs| :: !Has(xs[j], n, event)) ::
              MergeAll(xs)[n][event] == xs[i][n][event]
  {
    if xs != [] {
      var init, last := xs[..|xs| - 1], xs[|xs| - 1];
      LastWins(init, n, event);
      assert xs == init + [last];
      assert forall i | 0 <= i < |init| :: xs[i] == init[i];
    }
  }

  /** Copies the callbacks one by one, in any order; existing ones are overwritten. */
  method Fill(target: Events, source: EventMap)
    modifies target
    ensures target.callbacks == old(target.callbacks) + source
  {
    var rest := source.Keys;
    while rest != {}
      invariant rest <= source.Keys
      invariant target.callbacks == old(target.callbacks) + (source - rest)
      decreases rest
    {
      var event :| event in rest;
      rest := rest - {event};
      target.callbacks := target.callbacks[event := source[event]];
    }
    assert source - {} == source;
  }

  /** Every namespace of the result has an event map of its own. */
  ghost predicate Separate(r: map<Bytes, Events>) {
    forall m, n | m in r && n in r && m != n :: r[m] != r[n]
  }

  /** Clones an event map into the result, or fills the one that is there. */
  method AddNamespace(r: map<Bytes, Events>, n: Bytes, source: EventMap) returns (r': map<Bytes, Events>)
    requires Separate(r)
    modifies if n in r then {r[n]} else {}
    ensures Separate(r') && r'.Keys == r.Keys + {n} && (forall m | m in r :: r'[m] == r[m])
    ensures n !in r ==> fresh(r'[n])
    ensures Contents(r') == old(Contents(r))[n := if n in r then old(r[n].callbacks) + source else source]
  {
    if n in r {
      Fill(r[n], source);
      r' := r;
    } else {
      var cloned := new Events();
      Fill(cloned, source);
      assert map[] + source == source;
      r' := r[n := cloned];
    }
  }

  /** Adds the namespaces of one handler that have an event map, in any order. */
  method AddHandler(r: map<Bytes, Events>, source: map<Bytes, EventMap>) returns (r': map<Bytes, Events>)
    requires Separate(r)
    modifies r.Values
    ensures Separate(r') && (forall n | n in r' :: (n in r && r'[n] == r[n]) || fresh(r'[n]))
    ensures Contents(r') == Merge(old(Contents(r)), source)
  {
    r' := r;
    var rest := source.Keys;
    ghost var start := Contents(r);
    assert source - rest == map[] && Merge(start, map[]) == start;
    while rest != {}
      invariant rest <= source.Keys && Separate(r')
      invariant forall n | n in r' :: (n in r && r'[n] == r[n]) || fresh(r'[n])
      invariant Contents(r') == Merge(start, source - rest)
      decreases rest
    {
      var n :| n in rest;
      MergeStep(start, source, rest, n);
      assert n in r' <==> n in Contents(r');
      r' := AddNamespace(r', n, source[n]);
      rest := rest - {n};
    }
    assert source - rest == source;
  }

  ghost function AllContents(handlers: seq<Namespaces>): (xs: seq<map<Bytes, EventMap>>)
    reads set h, e | h in handlers && e in h.Values :: e
    ensures |xs| == |handlers| && forall i | 0 <= i < |xs| :: xs[i] == Contents(handlers[i])
  {
    if handlers == [] then [] else AllContents(handlers[..|handlers| - 1]) + [Contents(handlers[|handlers| - 1])]
  }

  /** `JoinConnHandlers`: the result is the right-biased union of all inputs with nil event maps skipped; all its
      event maps are new and separate, and no input is changed (nothing is modified). */
  method JoinConnHandlers(handlers: seq<Namespaces>) returns (r: map<Bytes, Events>)
    ensures Contents(r) == MergeAll(AllContents(handlers))
    ensures Separate(r) && forall n | n in r :: fresh(r[n])
  {
    r := map[];
    ghost var xs := AllContents(handlers);
    for i := 0 to |handlers|
      invariant Separate(r) && forall n | n in r :: fresh(r[n])
      invariant Contents(r) == MergeAll(xs[..i])
    {
      var nss := handlers[i];
      assert Contents(nss) == xs[i];
      var source := map n | n in nss && nss[n] != null :: nss[n].callbacks;
      r := AddHandler(r, source);
      assert xs[..i + 1][..i] == xs[..i];
    }
    assert xs[..|handlers|] == xs;
  }
}
