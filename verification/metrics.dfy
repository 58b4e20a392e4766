/** The metric projection of `Update`: one gauge sample per server entry, labelled
    `server = Name` with the rank as its value. Go ranges over a map in an unspecified
    order, so the loop is given the order as a parameter and its result is stated as a
    multiset that does not depend on it. */
module Metrics {
  import opened Schema

  /** One sample of the `rank` gauge of subsystem `battlemetrics`: the `server` label and the value. */
  datatype Sample = Sample(server: string, value: int)

  /** The sample emitted for one server record. */
  function SampleOf(s: Server): Sample
  {
    Sample(s.name, s.rank as int)
  }

  /** The multiset of samples of all entries of `m`, taken one entry at a time. */
  ghost function Image(m: map<string, Server>): multiset<Sample>
    decreases |m|
  {
    if m.Keys == {} then
      multiset{}
    else
      var k :| k in m.Keys;
      multiset{SampleOf(m[k])} + Image(m - {k})
  }

  /** The ids of the entries of `m` that project to `t`. */
  ghost function Hits(m: map<string, Server>, t: Sample): set<string>
  {
    set k | k in m && SampleOf(m[k]) == t
  }

  /** The ids listed in `ks` whose entries of `m` project to `t`. */
  ghost function HitsAmong(m: map<string, Server>, ks: seq<string>, t: Sample): set<string>
  {
    set k | k in ks && k in m && SampleOf(m[k]) == t
  }

  /** `order` is an order in which Go may range over `m`: every key exactly once. */
  predicate IsIterationOrder(order: seq<string>, m: map<string, Server>)
  {
    && (forall k :: k in m ==> k in order)
    && (forall a :: 0 <= a < |order| ==> order[a] in m)
    && (forall a, b :: 0 <= a < b < |order| ==> order[a] != order[b])
  }

  lemma HitsSplit(m: map<string, Server>, k: string, t: Sample)
    requires k in m
    ensures Hits(m, t) == Hits(m - {k}, t) + (if SampleOf(m[k]) == t then {k} else {})
    ensures k !in Hits(m - {k}, t)
  {
  }

  /** No filtering, no deduplication: a sample occurs in the image exactly as often as
      there are entries that project to it. */
  lemma {:induction false} ImageCount(m: map<string, Server>)
    ensures forall t :: Image(m)[t] == |Hits(m, t)|
    decreases |m|
  {
    if m.Keys == {} {
      forall t
        ensures Image(m)[t] == |Hits(m, t)|
      {
        assert Hits(m, t) == {};
      }
    } else {
      var k :| k in m.Keys && Image(m) == multiset{SampleOf(m[k])} + Image(m - {k});
      ImageCount(m - {k});
      forall t
        ensures Image(m)[t] == |Hits(m, t)|
      {
        HitsSplit(m, k, t);
      }
    }
  }

  /** The image has one sample per entry. */
  lemma {:induction false} ImageSize(m: map<string, Server>)
    ensures |Image(m)| == |m|
    decreases |m|
  {
    if m.Keys != {} {
      var k :| k in m.Keys && Image(m) == multiset{SampleOf(m[k])} + Image(m - {k});
      ImageSize(m - {k});
    }
  }

  /** Adding an entry under a fresh id adds exactly its sample. */
  lemma ImageInsert(m: map<string, Server>, k: string, v: Server)
    requires k !in m
    ensures Image(m[k := v]) == Image(m) + multiset{SampleOf(v)}
  {
    var m' := m[k := v];
    assert m' - {k} == m;
    ImageCount(m');
    ImageCount(m);
    forall t
      ensures Image(m')[t] == (Image(m) + multiset{SampleOf(v)})[t]
    {
      HitsSplit(m', k, t);
      assert |Hits(m', t)| == |Hits(m, t)| + (if SampleOf(v) == t then 1 else 0);
    }
  }

  /** Listing one more id that is not yet listed adds at most that id. */
  lemma HitsAmongStep(m: map<string, Server>, ks: seq<string>, k: string, t: Sample)
    requires k in m && k !in ks
    ensures |HitsAmong(m, ks + [k], t)| == |HitsAmong(m, ks, t)| + (if SampleOf(m[k]) == t then 1 else 0)
  {
    assert HitsAmong(m, ks + [k], t) == HitsAmong(m, ks, t) + (if SampleOf(m[k]) == t then {k} else {});
  }

  /** An iteration order lists exactly the ids of the map. */
  lemma HitsAmongOrder(m: map<string, Server>, order: seq<string>, t: Sample)
    requires IsIterationOrder(order, m)
    ensures HitsAmong(m, order, t) == Hits(m, t)
  {
  }

  /** The loop of `Update` (collector/battlemetrics.go): one sample per entry of
      `servers`, visited in `order`, in the order they are sent to the channel. */
  method Emit(servers: map<string, Server>, order: seq<string>) returns (samples: seq<Sample>)
    requires IsIterationOrder(order, servers)
    ensures |samples| == |servers|
    ensures multiset(samples) == Image(servers)
  {
    samples := [];
    var i := 0;
    while i < |order|
      invariant 0 <= i <= |order|
      invariant forall t :: multiset(samples)[t] == |HitsAmong(servers, order[..i], t)|
    {
      var k := order[i];
      assert order[..i + 1] == order[..i] + [k];
      assert k !in order[..i];
      forall t
        ensures multiset(samples + [SampleOf(servers[k])])[t] == |HitsAmong(servers, order[..i + 1], t)|
      {
        HitsAmongStep(servers, order[..i], k, t);
      }
      samples := samples + [SampleOf(servers[k])];
      i := i + 1;
    }
    assert order[..i] == order;
    ImageCount(servers);
    forall t
      ensures multiset(samples)[t] == Image(servers)[t]
    {
      HitsAmongOrder(servers, order, t);
    }
    assert multiset(samples) == Image(servers);
    ImageSize(servers);
  }
}
