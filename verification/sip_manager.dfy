/** The provider directory: a map from provider id to a shared provider handle.
    Registration overwrites (last writer wins), lookup answers Null for an id
    that is absent, and listing walks the ids in the map's key order. */
module SipManager {
  import opened SyncInfo
  import opened StringOrder

  datatype Manager = Manager(providers: map<string, ProviderRef>)

  /** A newly constructed manager knows no providers. */
  const Empty := Manager(map[])

  /** A new manager answers Null for every id and lists nothing. */
  lemma EmptyManager(id: string)
    ensures FindSip(Empty, id) == Null
    ensures |Empty.providers| == 0
  {
  }

  /** register_sip: bind id to p, replacing any earlier binding. */
  function RegisterSip(m: Manager, id: string, p: ProviderRef): (m': Manager)
    ensures m'.providers.Keys == m.providers.Keys + {id}
    ensures m'.providers[id] == p
    ensures forall k :: k in m.providers && k != id ==> m'.providers[k] == m.providers[k]
  {
    Manager(m.providers[id := p])
  }

  /** find_sip: the bound handle, or Null when id was never registered. */
  function FindSip(m: Manager, id: string): (p: ProviderRef)
    ensures id !in m.providers ==> p == Null
    ensures id in m.providers ==> p == m.providers[id]
    ensures p != Null ==> id in m.providers
  {
    if id in m.providers then m.providers[id] else Null
  }

  /** Registering id makes find_sip(id) answer the new handle and leaves the
      answer for every other id as it was. */
  lemma FindAfterRegister(m: Manager, id: string, p: ProviderRef, other: string)
    ensures FindSip(RegisterSip(m, id, p), id) == p
    ensures other != id ==> FindSip(RegisterSip(m, id, p), other) == FindSip(m, other)
  {
  }

  datatype Registration = Registration(id: string, provider: ProviderRef)

  /** The manager after a series of register_sip calls, in order, on a new manager. */
  function Replay(ops: seq<Registration>): Manager
    decreases |ops|
  {
    if |ops| == 0 then Empty
    else
      var last := ops[|ops| - 1];
      RegisterSip(Replay(ops[..|ops| - 1]), last.id, last.provider)
  }

  /** Reference answer for a lookup after a history of registrations: the
      handle of the latest registration of id, Null when there is none. */
  function LatestFor(ops: seq<Registration>, id: string): ProviderRef
    decreases |ops|
  {
    if |ops| == 0 then Null
    else if ops[|ops| - 1].id == id then ops[|ops| - 1].provider
    else LatestFor(ops[..|ops| - 1], id)
  }

  /** After any history, find_sip answers with the last writer for that id, a
      never-registered id is Null, and the registered ids are exactly the ids
      that occur in the history. */
  lemma {:induction false} FindAfterHistory(ops: seq<Registration>, id: string)
    ensures FindSip(Replay(ops), id) == LatestFor(ops, id)
    ensures (forall i :: 0 <= i < |ops| ==> ops[i].id != id) ==> FindSip(Replay(ops), id) == Null
    ensures id in Replay(ops).providers <==> exists i :: 0 <= i < |ops| && ops[i].id == id
    decreases |ops|
  {
    if |ops| > 0 {
      var init := ops[..|ops| - 1];
      FindAfterHistory(init, id);
      assert forall i :: 0 <= i < |init| ==> init[i] == ops[i];
      if id in Replay(ops).providers && ops[|ops| - 1].id != id {
        var i :| 0 <= i < |init| && init[i].id == id;
        assert ops[i].id == id;
      }
    }
  }

  /** The least key of a non-empty key set under std::string ordering. */
  method MinKey(s: set<string>) returns (k: string)
    requires s != {}
    ensures k in s
    ensures forall x :: x in s ==> LessEq(k, x)
  {
    k :| k in s;
    var rest := s - {k};
    LessEqReflexive(k);
    while rest != {}
      invariant rest <= s && k in s && k !in rest
      invariant forall x :: x in s && x !in rest ==> LessEq(k, x)
      decreases |rest|
    {
      var y :| y in rest;
      LessEqTotal(k, y);
      if !LessEq(k, y) {
        forall x | x in s && x !in rest
          ensures LessEq(y, x)
        {
          LessEqTransitive(y, k, x);
        }
        LessEqReflexive(y);
        k := y;
      }
      rest := rest - {y};
    }
  }

  /** list_sip: every registered id once, in ascending key order. */
  method ListSip(m: Manager) returns (ids: seq<string>)
    ensures StrictlySorted(ids)
    ensures forall i :: 0 <= i < |ids| ==> ids[i] in m.providers
    ensures forall k :: k in m.providers ==> k in ids
    ensures |ids| == |m.providers|
  {
    var remaining := m.providers.Keys;
    ids := [];
    while remaining != {}
      invariant remaining <= m.providers.Keys
      invariant forall i :: 0 <= i < |ids| ==> ids[i] in m.providers && ids[i] !in remaining
      invariant forall k :: k in m.providers && k !in remaining ==> k in ids
      invariant StrictlySorted(ids)
      invariant forall i, k :: 0 <= i < |ids| && k in remaining ==> Less(ids[i], k)
      invariant |ids| + |remaining| == |m.providers.Keys|
      decreases |remaining|
    {
      var k := MinKey(remaining);
      ids := ids + [k];
      remaining := remaining - {k};
    }
  }

  /** The listing is determined by the key set alone: two strictly sorted
      sequences with the same elements are equal, so every ascending walk of
      the same directory yields the same list. */
  lemma {:induction false} SortedListingUnique(a: seq<string>, b: seq<string>)
    requires StrictlySorted(a) && StrictlySorted(b)
    requires forall x :: x in a <==> x in b
    ensures a == b
    decreases |a|
  {
    assert |b| > 0 ==> b[0] in a;
    if |a| > 0 {
      assert a[0] in b;
      assert b[0] in a;
      assert |b| > 0;
      if a[0] != b[0] {
        var i :| 0 <= i < |b| && b[i] == a[0];
        var j :| 0 <= j < |a| && a[j] == b[0];
        assert i > 0 && j > 0;
        assert Less(b[0], b[i]);
        assert Less(a[0], a[j]);
        LessEqAntisymmetric(a[0], b[0]);
      }
      var a', b' := a[1..], b[1..];
      forall x
        ensures x in a' <==> x in b'
      {
        if x in a' {
          var i :| 0 <= i < |a'| && a'[i] == x;
          assert Less(a[0], a[i + 1]);
          assert x in b;
        }
        if x in b' {
          var i :| 0 <= i < |b'| && b'[i] == x;
          assert Less(b[0], b[i + 1]);
          assert x in a;
        }
      }
      SortedListingUnique(a', b');
      assert a == [a[0]] + a';
      assert b == [b[0]] + b';
    }
  }
}
