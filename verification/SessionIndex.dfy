/** The two maps by which a tunnel knows its sessions. */
module SessionIndex {
  import opened Wire

  /** A session as the maps hold it: an object identity with the name and ID it is filed by. */
  datatype Ref = Ref(handle: nat, name: string, sid: u32)

  datatype Index = Index(byName: map<string, Ref>, byId: map<u32, Ref>) {
    predicate NameLinked(r: Ref) {
      r.name in byName && byName[r.name] == r
    }

    predicate IdLinked(r: Ref) {
      r.sid in byId && byId[r.sid] == r
    }

    /** Every entry is filed under its own key. */
    ghost predicate Filed() {
      && (forall n :: n in byName ==> byName[n].name == n)
      && (forall k :: k in byId ==> byId[k].sid == k)
    }

    /** The two maps hold the same sessions. */
    ghost predicate Agrees() {
      Filed() && forall r: Ref :: NameLinked(r) <==> IdLinked(r)
    }

    function Link(r: Ref): Index {
      Index(byName[r.name := r], byId[r.sid := r])
    }

    /** Removal is by key, whoever holds it. */
    function Unlink(r: Ref): Index {
      Index(byName - {r.name}, byId - {r.sid})
    }
  }

  const EMPTY := Index(map[], map[])

  /** Linking under two free keys keeps the maps in agreement. */
  lemma {:induction false} LinkAgrees(ix: Index, r: Ref)
    requires ix.Agrees() && r.name !in ix.byName && r.sid !in ix.byId
    ensures ix.Link(r).Agrees()
  {
    var ix' := ix.Link(r);
    forall q: Ref
      ensures ix'.NameLinked(q) <==> ix'.IdLinked(q)
    {
      assert ix.NameLinked(q) <==> ix.IdLinked(q);
    }
  }

  /** The two keys of a reference lead to the same session, or both to none. */
  predicate SameHolder(ix: Index, r: Ref) {
    && (r.name in ix.byName <==> r.sid in ix.byId)
    && (r.name in ix.byName ==> ix.byName[r.name] == ix.byId[r.sid])
  }

  /** Unlinking keeps the maps in agreement exactly when both keys lead to the same session:
      a key that has passed to another session in the meantime breaks it. */
  lemma {:induction false} UnlinkAgreesIff(ix: Index, r: Ref)
    requires ix.Agrees()
    ensures ix.Unlink(r).Agrees() <==> SameHolder(ix, r)
  {
    var ix' := ix.Unlink(r);
    forall q: Ref
      ensures ix.NameLinked(q) <==> ix.IdLinked(q)
    {
    }
    if SameHolder(ix, r) {
      forall q: Ref
        ensures ix'.NameLinked(q) <==> ix'.IdLinked(q)
      {
        assert ix.NameLinked(q) <==> ix.IdLinked(q);
      }
    } else if r.name in ix.byName {
      var q := ix.byName[r.name];
      assert ix.NameLinked(q) && ix.IdLinked(q);
      if q.sid != r.sid {
        assert ix'.IdLinked(q) && !ix'.NameLinked(q);
      }
    } else {
      var q := ix.byId[r.sid];
      assert ix.IdLinked(q) && ix.NameLinked(q);
      assert ix'.NameLinked(q) && !ix'.IdLinked(q);
    }
  }

  // ---------------------------------------------------------------------------
  // The object

  /** Each element of the list is there once, and the list holds exactly these. */
  ghost predicate Lists(refs: seq<Ref>, linked: set<Ref>) {
    && (forall i, j :: 0 <= i < j < |refs| ==> refs[i] != refs[j])
    && (forall r :: r in refs <==> r in linked)
  }

  class BaseTunnel {
    var sessionsByName: map<string, Ref>
    var sessionsByID: map<u32, Ref>

    constructor ()
      ensures View() == EMPTY
    {
      sessionsByName, sessionsByID := map[], map[];
    }

    function View(): Index
      reads this
    {
      Index(sessionsByName, sessionsByID)
    }

    method LinkSession(s: Ref)
      modifies this
      ensures View() == old(View()).Link(s)
      ensures old(View().Agrees() && s.name !in sessionsByName && s.sid !in sessionsByID) ==> View().Agrees()
    {
      if View().Agrees() && s.name !in sessionsByName && s.sid !in sessionsByID {
        LinkAgrees(View(), s);
      }
      sessionsByName := sessionsByName[s.name := s];
      sessionsByID := sessionsByID[s.sid := s];
    }

    method UnlinkSession(s: Ref)
      modifies this
      ensures View() == old(View()).Unlink(s)
      ensures old(View().Agrees()) ==> (View().Agrees() <==> old(SameHolder(View(), s)))
    {
      if View().Agrees() {
        UnlinkAgreesIff(View(), s);
      }
      sessionsByName := sessionsByName - {s.name};
      sessionsByID := sessionsByID - {s.sid};
    }

    /** Each map is asked by its own key; in agreeing maps a session found by one key is found
        by the other. */
    method FindSession(name: string, id: u32) returns (n: Option<Ref>, k: Option<Ref>)
      ensures n.None? <==> name !in sessionsByName
      ensures k.None? <==> id !in sessionsByID
      ensures n.Some? && View().Filed() ==> n.value.name == name && View().NameLinked(n.value)
      ensures k.Some? && View().Filed() ==> k.value.sid == id && View().IdLinked(k.value)
      ensures n.Some? && View().Agrees() ==> View().IdLinked(n.value)
      ensures k.Some? && View().Agrees() ==> View().NameLinked(k.value)
    {
      n, k := None, None;
      if name in sessionsByName {
        n := Some(sessionsByName[name]);
        assert View().Filed() ==> View().NameLinked(n.value);
      }
      if id in sessionsByID {
        k := Some(sessionsByID[id]);
        assert View().Filed() ==> View().IdLinked(k.value);
      }
    }

    /** Every linked session, once each, in whatever order the map yields them. */
    method AllSessions() returns (refs: seq<Ref>)
      requires View().Filed()
      ensures Lists(refs, sessionsByName.Values)
    {
      TakeNone(sessionsByName, sessionsByID);
      hide Taken, Sids, Lists;
      refs := [];
      var left := sessionsByName;
      while left.Keys != {}
        invariant Taken(refs, sessionsByName, left)
        decreases |left.Keys|
      {
        var n :| n in left.Keys;
        TakeOne(refs, sessionsByName, left, n);
        refs := refs + [left[n]];
        left := left - {n};
      }
      AllTaken(refs, sessionsByName, left);
    }

    /** Empty the maps and return the sessions to be killed. */
    method CloseAllSessions() returns (killed: seq<Ref>)
      requires View().Filed()
      modifies this
      ensures Lists(killed, old(sessionsByName).Values)
      ensures View() == Drained(old(View()))
    {
      TakeNone(sessionsByName, sessionsByID);
      hide Taken, Sids, IdsByName, Lists;
      killed := [];
      while sessionsByName.Keys != {}
        invariant Taken(killed, old(sessionsByName), sessionsByName)
        invariant sessionsByID == old(sessionsByID) - Sids(killed)
        decreases |sessionsByName.Keys|
      {
        var n :| n in sessionsByName.Keys;
        var s := sessionsByName[n];
        TakeOne(killed, old(sessionsByName), sessionsByName, n);
        MinusBoth(old(sessionsByID), Sids(killed), s.sid);
        killed := killed + [s];
        sessionsByName := sessionsByName - {n};
        sessionsByID := sessionsByID - {s.sid};
      }
      AllTaken(killed, old(sessionsByName), sessionsByName);
    }
  }

  function Sids(refs: seq<Ref>): set<u32> {
    set r | r in refs :: r.sid
  }

  /** The entries of the map are divided between the list and what is left. */
  ghost predicate Taken(refs: seq<Ref>, all: map<string, Ref>, left: map<string, Ref>) {
    && left.Keys <= all.Keys
    && (forall n :: n in all ==> all[n].name == n)
    && (forall n :: n in left ==> left[n] == all[n])
    && (forall i, j :: 0 <= i < j < |refs| ==> refs[i] != refs[j])
    && (forall r :: r in refs <==> r.name in all && r.name !in left && all[r.name] == r)
  }

  lemma {:induction false} TakeOne(refs: seq<Ref>, all: map<string, Ref>, left: map<string, Ref>, n: string)
    requires Taken(refs, all, left) && n in left
    ensures Taken(refs + [left[n]], all, left - {n})
    ensures Sids(refs + [left[n]]) == Sids(refs) + {left[n].sid}
  {
  }

  lemma {:induction false} TakeNone(all: map<string, Ref>, ids: map<u32, Ref>)
    requires forall n :: n in all ==> all[n].name == n
    ensures Taken([], all, all) && ids - Sids([]) == ids
  {
  }

  lemma {:induction false} MinusBoth(m: map<u32, Ref>, ks: set<u32>, k: u32)
    ensures m - (ks + {k}) == (m - ks) - {k}
  {
  }

  lemma {:induction false} AllTaken(refs: seq<Ref>, all: map<string, Ref>, left: map<string, Ref>)
    requires Taken(refs, all, left) && left.Keys == {}
    ensures Lists(refs, all.Values) && left == map[]
    ensures forall ids :: Sids(refs) == IdsByName(Index(all, ids))
  {
  }

  function IdsByName(ix: Index): set<u32> {
    set n | n in ix.byName :: ix.byName[n].sid
  }

  /** What draining by name leaves: the IDs filed for no session known by name. */
  function Drained(ix: Index): Index {
    Index(map[], ix.byId - IdsByName(ix))
  }

  /** Draining agreeing maps empties both. */
  lemma {:induction false} DrainEmpties(ix: Index)
    requires ix.Agrees()
    ensures Drained(ix) == EMPTY
  {
    forall k | k in ix.byId
      ensures k in IdsByName(ix)
    {
      assert ix.IdLinked(ix.byId[k]);
      assert ix.NameLinked(ix.byId[k]);
    }
    assert Drained(ix).byId == map[];
  }
}
