/** Membership bookkeeping of a tracker component: the parallel lists of
    tracked transforms (Trans) and their weights (Weights), updated by spawn
    and removal events and by StopTracking. */
module Trackers {
  import opened ListOps
  import opened Options

  /** A transform, identified by an opaque id. */
  type TransformId = nat

  /** An entry of Trans: a live transform, or a reference whose object the
      engine has destroyed since it was added (such an entry compares equal
      to null). */
  datatype Ref = Stale | Live(t: TransformId)

  /** What a tracker reads of the Trackable a spawn event points at: its
      transform, the hash of its id, its weight, and whether the component
      itself has been destroyed (a reference that is null to the engine). */
  datatype TrackableRef<W> = TrackableRef(transform: TransformId, idHash: int, weight: W, isNull: bool)

  datatype SpawnedEvent<W> = SpawnedEvent(target: TrackableRef<W>)

  /** A removal event, posted by a Trackable while it is still alive, so its
      transform is always readable. */
  datatype RemovedEvent = RemovedEvent(target: TransformId)

  /** The two parallel lists of a tracker. */
  datatype Lists<W> = Lists(trans: seq<Ref>, weights: seq<W>) {
    /** Every transform has a weight at the same index. */
    predicate Synced() {
      |trans| == |weights|
    }

    /** Every transform has a weight at its own index, though Weights may
        hold more entries than Trans. */
    predicate Covered() {
      |trans| <= |weights|
    }
  }

  /** The state after an event handler: the lists, and whether an exception
      escaped the handler part-way (the lists are then as far as it got). */
  datatype Outcome<W> = Outcome(lists: Lists<W>, threw: bool)

  /** No live transform occurs twice. */
  ghost predicate NoRepeats(s: seq<Ref>) {
    forall x: TransformId :: multiset(s)[Live(x)] <= 1
  }

  /** Every entry is live and carries a Trackable whose id hash `world` gives,
      so that looking up its Trackable component does not throw. */
  predicate Resolvable(s: seq<Ref>, world: map<TransformId, int>) {
    forall i :: 0 <= i < |s| ==> s[i].Live? && s[i].t in world
  }

  /** HandleSpawned on the lists. */
  function Spawned<W>(l: Lists<W>, hashedIds: seq<int>, allowRepeats: bool, e: SpawnedEvent<W>): (r: Lists<W>)
    // an id that is not allowed changes nothing
    ensures e.target.idHash !in hashedIds ==> r == l
    // a destroyed target cuts the first stale entry out of Trans, keeping the
    // order of the rest; Weights stays as it was
    ensures e.target.idHash in hashedIds && e.target.isNull && Stale !in l.trans ==> r == l
    ensures e.target.idHash in hashedIds && e.target.isNull && Stale in l.trans ==>
              r.weights == l.weights && r.trans == RemoveAt(l.trans, IndexOf(l.trans, Stale))
    // ... which breaks the pairing of the two lists whenever it removes something
    ensures e.target.idHash in hashedIds && e.target.isNull && Stale in l.trans && l.Synced() ==>
              |r.weights| == |r.trans| + 1
    // an accepted target goes to the end of both lists, everything before is kept
    ensures e.target.idHash in hashedIds && !e.target.isNull &&
            (allowRepeats || Live(e.target.transform) !in l.trans) ==>
              |r.trans| == |l.trans| + 1 && r.trans[..|l.trans|] == l.trans &&
              r.trans[|l.trans|] == Live(e.target.transform) &&
              |r.weights| == |l.weights| + 1 && r.weights[..|l.weights|] == l.weights &&
              r.weights[|l.weights|] == e.target.weight
    // without repeats, a transform already tracked is not added again, and
    // neither list changes
    ensures (e.target.idHash in hashedIds && !e.target.isNull && !allowRepeats &&
             Live(e.target.transform) in l.trans) ==> r == l
    ensures !allowRepeats && NoRepeats(l.trans) ==> NoRepeats(r.trans)
    // only the stale-reference branch can unpair the lists, and no branch
    // leaves a transform without a weight
    ensures l.Synced() && !(e.target.idHash in hashedIds && e.target.isNull) ==> r.Synced()
    ensures l.Covered() ==> r.Covered()
  {
    var target := e.target;
    if target.idHash !in hashedIds then l
    else if target.isNull then Lists(Remove(l.trans, Stale), l.weights)
    else if allowRepeats || Live(target.transform) !in l.trans then
      Lists(l.trans + [Live(target.transform)], l.weights + [target.weight])
    else l
  }

  /** The removal both HandleRemoved and each step of StopTracking perform:
      find the first entry of x in Trans, remove it there, then remove the
      weight at the same index. If Weights is too short for that index the
      second removal throws after the first has happened. */
  function RemoveTracked<W>(l: Lists<W>, x: TransformId): (r: Outcome<W>)
    // an untracked transform changes nothing
    ensures Live(x) !in l.trans ==> r == Outcome(l, false)
    // exactly one occurrence of x leaves Trans when it is tracked
    ensures multiset(r.lists.trans) == multiset(l.trans) - multiset{Live(x)}
    // the first occurrence goes, and the weight at that same index goes with it
    ensures Live(x) in l.trans && l.Covered() ==>
              var i := IndexOf(l.trans, Live(x));
              Live(x) !in l.trans[..i] &&
              r.lists.trans == RemoveAt(l.trans, i) && r.lists.weights == RemoveAt(l.weights, i)
    // while every transform has a weight it never throws, and pairing is kept
    ensures l.Covered() ==> !r.threw && r.lists.Covered()
    ensures l.Synced() ==> r.lists.Synced()
    ensures r.threw <==> Live(x) in l.trans && IndexOf(l.trans, Live(x)) >= |l.weights|
  {
    var i := IndexOf(l.trans, Live(x));
    if i < 0 then Outcome(l, false)
    else if i < |l.weights| then Outcome(Lists(RemoveAt(l.trans, i), RemoveAt(l.weights, i)), false)
    else Outcome(Lists(RemoveAt(l.trans, i), l.weights), true)
  }

  /** A removal drops one entry and adds none, so it adds no repeat. */
  lemma RemoveTrackedKeepsNoRepeats<W>(l: Lists<W>, x: TransformId)
    requires NoRepeats(l.trans)
    ensures NoRepeats(RemoveTracked(l, x).lists.trans)
  {
  }

  /** The loop of StopTracking: one RemoveTracked per element of `tracks`, in
      order, stopping at the first exception. */
  function StopAll<W>(l: Lists<W>, tracks: seq<TransformId>): (r: Outcome<W>)
    ensures !r.threw ==> |r.lists.trans| <= |l.trans|
    decreases |tracks|
  {
    if tracks == [] then Outcome(l, false)
    else
      var step := RemoveTracked(l, tracks[0]);
      if step.threw then step else StopAll(step.lists, tracks[1..])
  }

  /** GetAllOfId on the lists: the transforms of Trans whose Trackable has id
      hash h, in Trans order, one element per entry. */
  function MatchingIds(s: seq<Ref>, world: map<TransformId, int>, h: int): (r: seq<TransformId>)
    requires Resolvable(s, world)
    ensures forall k :: 0 <= k < |r| ==> Live(r[k]) in s && r[k] in world && world[r[k]] == h
    decreases |s|
  {
    if s == [] then []
    else
      var rest := MatchingIds(s[1..], world, h);
      if world[s[0].t] == h then [s[0].t] + rest else rest
  }

  /** StopTracking on the lists: GetAllOfId first (which throws on a stale
      entry or on a transform without a Trackable), then the removal loop. */
  function StopTrackingSpec<W>(l: Lists<W>, world: map<TransformId, int>, h: int): Outcome<W>
  {
    if !Resolvable(l.trans, world) then Outcome(l, true)
    else StopAll(l, MatchingIds(l.trans, world, h))
  }

  /** Reference definition of what StopTracking should leave: the pairs whose
      transform does not have id hash h, in their original order, followed by
      the weights that have no transform beside them. */
  function KeepOthers<W>(l: Lists<W>, world: map<TransformId, int>, h: int): (r: Lists<W>)
    requires l.Covered() && Resolvable(l.trans, world)
    ensures r.Covered() && Resolvable(r.trans, world)
    // the weights without a transform beside them stay, in order, at the end
    ensures r.weights[|r.trans|..] == l.weights[|l.trans|..]
    ensures forall i :: 0 <= i < |r.trans| ==> world[r.trans[i].t] != h
    decreases |l.trans|
  {
    if l.trans == [] then Lists([], l.weights)
    else
      var rest := KeepOthers(Lists(l.trans[1..], l.weights[1..]), world, h);
      if world[l.trans[0].t] == h then rest
      else Lists([l.trans[0]] + rest.trans, [l.weights[0]] + rest.weights)
  }

  /** The reference definition only drops entries: it adds no repeat and
      keeps paired lists paired. */
  lemma {:induction false} KeepOthersDropsOnly<W>(l: Lists<W>, world: map<TransformId, int>, h: int)
    requires l.Covered() && Resolvable(l.trans, world)
    ensures var r := KeepOthers(l, world, h);
            multiset(r.trans) <= multiset(l.trans) &&
            (NoRepeats(l.trans) ==> NoRepeats(r.trans)) &&
            (l.Synced() ==> r.Synced())
    decreases |l.trans|
  {
    if l.trans != [] {
      var tail := Lists(l.trans[1..], l.weights[1..]);
      assert Resolvable(tail.trans, world) by {
        assert forall i :: 0 <= i < |tail.trans| ==> tail.trans[i] == l.trans[i + 1];
      }
      KeepOthersDropsOnly(tail, world, h);
      assert l.trans == [l.trans[0]] + tail.trans;
      var rest := KeepOthers(tail, world, h);
      assert multiset(rest.trans) <= multiset(tail.trans);
    }
  }

  /** The indices, from `from` on, of the entries of s whose id hash is not
      h, in increasing order. */
  function KeptFrom(s: seq<Ref>, world: map<TransformId, int>, h: int, from: nat): (ks: seq<nat>)
    requires from <= |s| && Resolvable(s, world)
    ensures forall k :: 0 <= k < |ks| ==> from <= ks[k] < |s| && world[s[ks[k]].t] != h
    ensures forall k, k' :: 0 <= k < k' < |ks| ==> ks[k] < ks[k']
    ensures forall i :: from <= i < |s| && world[s[i].t] != h ==> i in ks
    decreases |s| - from
  {
    if from == |s| then []
    else
      var rest := KeptFrom(s, world, h, from + 1);
      if world[s[from].t] != h then [from] + rest else rest
  }

  /** GetAllOfId distributes over concatenation: matches of a come before
      matches of b. */
  lemma {:induction false} MatchingIdsAppend(a: seq<Ref>, b: seq<Ref>, world: map<TransformId, int>, h: int)
    requires Resolvable(a + b, world)
    ensures Resolvable(a, world) && Resolvable(b, world)
    ensures MatchingIds(a + b, world, h) == MatchingIds(a, world, h) + MatchingIds(b, world, h)
    decreases |a|
  {
    assert forall i :: 0 <= i < |a| ==> (a + b)[i] == a[i];
    assert forall i :: 0 <= i < |b| ==> (a + b)[|a| + i] == b[i];
    if a == [] {
      assert a + b == b;
    } else {
      assert (a + b)[0] == a[0];
      assert (a + b)[1..] == a[1..] + b;
      MatchingIdsAppend(a[1..], b, world, h);
    }
  }

  /** GetAllOfId lists a transform once for every entry it has in Trans when
      its id hash matches, and never otherwise. */
  lemma {:induction false} MatchingIdsCount(s: seq<Ref>, world: map<TransformId, int>, h: int, x: TransformId)
    requires Resolvable(s, world)
    ensures multiset(MatchingIds(s, world, h))[x] ==
            if x in world && world[x] == h then multiset(s)[Live(x)] else 0
    decreases |s|
  {
    if s != [] {
      assert s == [s[0]] + s[1..];
      assert multiset(s) == multiset{s[0]} + multiset(s[1..]);
      MatchingIdsCount(s[1..], world, h, x);
    }
  }

  /** The reference definition keeps exactly the pairs at the indices KeptFrom
      lists, so surviving transforms keep their order and their own weights. */
  lemma {:induction false} KeepOthersAt<W>(l: Lists<W>, world: map<TransformId, int>, h: int, from: nat)
    requires l.Covered() && Resolvable(l.trans, world) && from <= |l.trans|
    ensures Resolvable(l.trans[from..], world)
    ensures var r, ks := KeepOthers(Lists(l.trans[from..], l.weights[from..]), world, h), KeptFrom(l.trans, world, h, from);
            |r.trans| == |ks| &&
            (forall k :: 0 <= k < |ks| ==> r.trans[k] == l.trans[ks[k]]) &&
            (forall k :: 0 <= k < |ks| ==> r.weights[k] == l.weights[ks[k]])
    decreases |l.trans| - from
  {
    var suf := Lists(l.trans[from..], l.weights[from..]);
    assert forall i :: 0 <= i < |suf.trans| ==> suf.trans[i] == l.trans[from + i];
    if from < |l.trans| {
      var tail := Lists(l.trans[from + 1..], l.weights[from + 1..]);
      assert suf.trans[1..] == tail.trans;
      assert suf.weights[1..] == tail.weights;
      KeepOthersAt(l, world, h, from + 1);
      var rt, kt := KeepOthers(tail, world, h), KeptFrom(l.trans, world, h, from + 1);
      var r, ks := KeepOthers(suf, world, h), KeptFrom(l.trans, world, h, from);
      if world[l.trans[from].t] == h {
        assert r == rt && ks == kt;
      } else {
        assert r == Lists([l.trans[from]] + rt.trans, [l.weights[from]] + rt.weights);
        assert ks == [from] + kt;
        ConsAt(rt.trans, kt, l.trans, from);
        ConsAt(rt.weights, kt, l.weights, from);
      }
    }
  }

  /** Putting the element at `from` in front of a selection of s adds `from`
      in front of its index list. */
  lemma ConsAt<T>(rt: seq<T>, kt: seq<nat>, s: seq<T>, from: nat)
    requires from < |s| && |kt| <= |rt|
    requires forall k :: 0 <= k < |kt| ==> kt[k] < |s| && rt[k] == s[kt[k]]
    ensures forall k :: 0 <= k < |kt| + 1 ==> ([from] + kt)[k] < |s| && ([s[from]] + rt)[k] == s[([from] + kt)[k]]
  {
  }

  /** Removing a transform that sits right after a prefix free of it drops
      that entry and its weight, and the loop goes on with the rest. */
  lemma StopAllDropsFirst<W>(pre: Lists<W>, suf: Lists<W>, m: seq<TransformId>)
    requires suf.trans != [] && pre.Synced() && suf.Covered() && suf.trans[0].Live?
    requires Live(suf.trans[0].t) !in pre.trans
    ensures StopAll(Lists(pre.trans + suf.trans, pre.weights + suf.weights), [suf.trans[0].t] + m)
            == StopAll(Lists(pre.trans + suf.trans[1..], pre.weights + suf.weights[1..]), m)
  {
    var x := suf.trans[0].t;
    var all := Lists(pre.trans + suf.trans, pre.weights + suf.weights);
    IndexOfAfterPrefix(pre.trans, suf.trans, Live(x));
    RemoveAtJoin(pre.trans, suf.trans);
    RemoveAtJoin(pre.weights, suf.weights);
    assert RemoveTracked(all, x) == Outcome(Lists(pre.trans + suf.trans[1..], pre.weights + suf.weights[1..]), false);
    assert ([x] + m)[1..] == m;
  }

  /** One step of the StopTracking loop, from a state where the entries before
      the cursor have all been filtered already. */
  lemma {:induction false} StopAllFrom<W>(pre: Lists<W>, suf: Lists<W>, world: map<TransformId, int>, h: int)
    requires pre.Synced() && suf.Covered()
    requires Resolvable(pre.trans, world) && Resolvable(suf.trans, world)
    requires forall i :: 0 <= i < |pre.trans| ==> world[pre.trans[i].t] != h
    ensures var k := KeepOthers(suf, world, h);
            StopAll(Lists(pre.trans + suf.trans, pre.weights + suf.weights), MatchingIds(suf.trans, world, h))
            == Outcome(Lists(pre.trans + k.trans, pre.weights + k.weights), false)
    decreases |suf.trans|
  {
    var k := KeepOthers(suf, world, h);
    if suf.trans == [] {
      assert pre.trans + suf.trans == pre.trans + k.trans;
      assert pre.weights + suf.weights == pre.weights + k.weights;
    } else {
      var all := Lists(pre.trans + suf.trans, pre.weights + suf.weights);
      var tail := Lists(suf.trans[1..], suf.weights[1..]);
      var x := suf.trans[0].t;
      assert Resolvable(tail.trans, world) by {
        assert forall i :: 0 <= i < |tail.trans| ==> tail.trans[i] == suf.trans[i + 1];
      }
      var kt := KeepOthers(tail, world, h);
      var m := MatchingIds(tail.trans, world, h);
      if world[x] == h {
        assert k == kt;
        assert MatchingIds(suf.trans, world, h) == [x] + m;
        // the first entry of x in the whole list is this one: none is left before it
        assert Live(x) !in pre.trans;
        StopAllDropsFirst(pre, suf, m);
        StopAllFrom(pre, tail, world, h);
      } else {
        assert k == Lists([suf.trans[0]] + kt.trans, [suf.weights[0]] + kt.weights);
        assert MatchingIds(suf.trans, world, h) == m;
        var pre' := Lists(pre.trans + [suf.trans[0]], pre.weights + [suf.weights[0]]);
        assert pre'.trans + tail.trans == all.trans;
        assert pre'.weights + tail.weights == all.weights;
        assert Resolvable(pre'.trans, world);
        assert forall i :: 0 <= i < |pre'.trans| ==> world[pre'.trans[i].t] != h;
        StopAllFrom(pre', tail, world, h);
        ShiftIntoPrefix(pre.trans, suf.trans[0], kt.trans);
        ShiftIntoPrefix(pre.weights, suf.weights[0], kt.weights);
      }
    }
  }

  /** StopTracking on lists whose entries all resolve and all have a weight:
      it does not throw, and it leaves exactly the pairs with another id hash,
      even when a transform was tracked several times. */
  lemma StopTrackingRemovesAll<W>(l: Lists<W>, world: map<TransformId, int>, h: int)
    requires l.Covered() && Resolvable(l.trans, world)
    ensures StopTrackingSpec(l, world, h) == Outcome(KeepOthers(l, world, h), false)
    ensures var r := StopTrackingSpec(l, world, h).lists;
            forall x :: x in world && world[x] == h ==> Live(x) !in r.trans
  {
    var empty: Lists<W> := Lists([], []);
    assert empty.trans + l.trans == l.trans && empty.weights + l.weights == l.weights;
    StopAllFrom(empty, l, world, h);
    var k := KeepOthers(l, world, h);
    assert empty.trans + k.trans == k.trans && empty.weights + k.weights == k.weights;
  }

  /** Once the stale-reference branch has cut entry i out of Trans but no
      weight, a transform whose first entry was at j > i moves to j - 1, beside
      the weight of the entry before it, and removing it takes that weight
      away instead of its own. */
  lemma StaleSpawnMispairs<W>(l: Lists<W>, hashedIds: seq<int>, allowRepeats: bool, e: SpawnedEvent<W>, x: TransformId)
    requires e.target.idHash in hashedIds && e.target.isNull && l.Covered()
    requires Stale in l.trans && Live(x) in l.trans && IndexOf(l.trans, Stale) < IndexOf(l.trans, Live(x))
    ensures var r, j := Spawned(l, hashedIds, allowRepeats, e), IndexOf(l.trans, Live(x));
            r.trans[j - 1] == Live(x) && r.weights[j - 1] == l.weights[j - 1] &&
            IndexOf(r.trans, Live(x)) == j - 1 &&
            RemoveTracked(r, x).lists.weights == RemoveAt(l.weights, j - 1)
  {
    var r := Spawned(l, hashedIds, allowRepeats, e);
    var i, j := IndexOf(l.trans, Stale), IndexOf(l.trans, Live(x));
    assert r.trans == RemoveAt(l.trans, i);
    assert Live(x) !in r.trans[..j - 1] by {
      forall k | 0 <= k < j - 1 ensures r.trans[k] != Live(x) {
        if k < i {
          assert r.trans[k] == l.trans[..j][k];
        } else {
          assert r.trans[k] == l.trans[..j][k + 1];
        }
      }
    }
    IndexOfAt(r.trans, Live(x), j - 1);
  }

  /** HashedIds construction in Awake: one hash per allowed id, in order. */
  method HashAll(ids: seq<string>, stringToHash: string -> int) returns (hashed: seq<int>)
    ensures |hashed| == |ids|
    ensures forall i :: 0 <= i < |ids| ==> hashed[i] == stringToHash(ids[i])
  {
    hashed := [];
    for i := 0 to |ids|
      invariant |hashed| == i
      invariant forall j :: 0 <= j < i ==> hashed[j] == stringToHash(ids[j])
    {
      hashed := hashed + [stringToHash(ids[i])];
    }
  }

  /** A tracker component. Trans and Weights are meant to be paired index by
      index, but the stale-reference branch of HandleSpawned can unpair them;
      what every handler keeps is that each transform has a weight at its own
      index, so Weights.RemoveAt never runs past the end. */
  class Tracker<W> {
    const AllowRepeats: bool
    const AllowedIds: seq<string>
    const StringToHash: string -> int
    const HashedIds: seq<int>
    var Trans: seq<Ref>
    var Weights: seq<W>

    ghost function Snapshot(): Lists<W>
      reads this
    {
      Lists(Trans, Weights)
    }

    ghost predicate Valid()
      reads this
    {
      Snapshot().Covered() && (!AllowRepeats ==> NoRepeats(Trans))
    }

    constructor Awake(allowRepeats: bool, allowedIds: seq<string>, stringToHash: string -> int)
      ensures AllowRepeats == allowRepeats && AllowedIds == allowedIds && StringToHash == stringToHash
      ensures |HashedIds| == |AllowedIds|
      ensures forall i :: 0 <= i < |AllowedIds| ==> HashedIds[i] == StringToHash(AllowedIds[i])
      ensures Trans == [] && Weights == []
      ensures Valid()
    {
      var hashed := HashAll(allowedIds, stringToHash);
      AllowRepeats := allowRepeats;
      AllowedIds := allowedIds;
      StringToHash := stringToHash;
      Trans := [];
      Weights := [];
      HashedIds := hashed;
    }

    function HasTargets(): (r: bool)
      reads this
      ensures r <==> Trans != []
    {
      |Trans| > 0
    }

    /** The transforms in Trans whose Trackable has the hash of `id`, or None
        when looking up some entry's Trackable throws. */
    method GetAllOfId(id: string, world: map<TransformId, int>) returns (r: Option<seq<TransformId>>)
      ensures r.None? <==> !Resolvable(Trans, world)
      ensures r.Some? ==> r.value == MatchingIds(Trans, world, StringToHash(id))
    {
      var hash := StringToHash(id);
      var found: seq<TransformId> := [];
      for i := 0 to |Trans|
        invariant Resolvable(Trans[..i], world)
        invariant found == MatchingIds(Trans[..i], world, hash)
      {
        var t := Trans[i];
        if !t.Live? || t.t !in world {
          return None;
        }
        assert Trans[..i + 1] == Trans[..i] + [t];
        MatchingIdsAppend(Trans[..i], [t], world, hash);
        if world[t.t] == hash {
          found := found + [t.t];
        }
      }
      assert Trans[..|Trans|] == Trans;
      return Some(found);
    }

    /** Stop tracking every entry whose Trackable has the given id; `threw`
        says that GetAllOfId threw, before anything was removed. */
    method StopTracking(id: string, world: map<TransformId, int>) returns (threw: bool)
      requires Valid()
      modifies this
      ensures Valid()
      ensures Outcome(Snapshot(), threw) == StopTrackingSpec(old(Snapshot()), world, StringToHash(id))
      ensures threw <==> !old(Resolvable(Trans, world))
      ensures threw ==> Snapshot() == old(Snapshot())
      ensures !threw ==> Snapshot() == KeepOthers(old(Snapshot()), world, StringToHash(id))
      ensures old(Snapshot().Synced()) ==> Snapshot().Synced()
    {
      ghost var start := Snapshot();
      var tracks := GetAllOfId(id, world);
      if tracks.None? {
        return true;
      }
      StopTrackingRemovesAll(start, world, StringToHash(id));
      KeepOthersDropsOnly(start, world, StringToHash(id));
      RemoveAll(tracks.value);
      return false;
    }

    /** The foreach of StopTracking: one removal per listed transform, in
        order. */
    method RemoveAll(ts: seq<TransformId>)
      requires Valid()
      modifies this
      ensures Valid()
      ensures Outcome(Snapshot(), false) == StopAll(old(Snapshot()), ts)
    {
      for k := 0 to |ts|
        invariant Valid()
        invariant StopAll(Snapshot(), ts[k..]) == StopAll(old(Snapshot()), ts)
      {
        assert ts[k..][1..] == ts[k + 1..];
        RemoveEntry(ts[k]);
      }
    }

    method HandleSpawned(msg: SpawnedEvent<W>)
      requires Valid()
      modifies this
      ensures Valid()
      ensures Snapshot() == Spawned(old(Snapshot()), HashedIds, AllowRepeats, msg)
    {
      var target := msg.target;
      if target.idHash in HashedIds {
        if target.isNull {
          // an old reference left over from an unloaded scene
          Trans := Remove(Trans, Stale);
        } else if AllowRepeats || Live(target.transform) !in Trans {
          Trans := Trans + [Live(target.transform)];
          Weights := Weights + [target.weight];
        }
      }
    }

    method HandleRemoved(msg: RemovedEvent)
      requires Valid()
      modifies this
      ensures Valid()
      ensures Outcome(Snapshot(), false) == RemoveTracked(old(Snapshot()), msg.target)
    {
      RemoveEntry(msg.target);
    }

    /** The removal HandleRemoved performs and StopTracking repeats for each
        matching Trackable: first occurrence in Trans, then the weight at the
        same index, which Valid guarantees is there. */
    method RemoveEntry(x: TransformId)
      requires Valid()
      modifies this
      ensures Valid()
      ensures Outcome(Snapshot(), false) == RemoveTracked(old(Snapshot()), x)
    {
      if !AllowRepeats {
        RemoveTrackedKeepsNoRepeats(Snapshot(), x);
      }
      var index := IndexOf(Trans, Live(x));
      if index >= 0 {
        Trans := RemoveAt(Trans, index);
        Weights := RemoveAt(Weights, index);
      }
    }
  }
}
