/**
 * The registration table as the event loop keeps it (event_loop_epoll.cpp): 128 places
 * searched, filled and cleared in place; proved against EpollReconcile.
 */
module EpollInPlace {
  import opened Prelude
  import opened EpollReconcile

  /** One place of the table: the key and its entry, or free. */
  type Place = Option<(Key, Entry)>

  /** The places hold exactly the map's registrations, each once. */
  ghost predicate Holds(places: seq<Place>, regs: map<Key, Entry>) {
    && (forall i | 0 <= i < |places| && places[i].Some? :: places[i].value.0 in regs && regs[places[i].value.0] == places[i].value.1)
    && (forall key | key in regs :: exists i :: 0 <= i < |places| && places[i] == Some((key, regs[key])))
    && (forall i, j | 0 <= i < j < |places| && places[i].Some? && places[j].Some? :: places[i].value.0 != places[j].value.0)
  }

  function Used(places: seq<Place>): (n: nat)
    ensures n <= |places|
  {
    if places == [] then 0 else Used(places[..|places| - 1]) + if places[|places| - 1].Some? then 1 else 0
  }

  lemma {:induction false} UsedIsSize(places: seq<Place>, regs: map<Key, Entry>)
    requires Holds(places, regs)
    ensures |regs| == Used(places)
    decreases |places|
  {
    if places == [] {
      assert regs == map[];
    } else {
      var n := |places| - 1;
      var rest := if places[n].None? then regs else regs - {places[n].value.0};
      FrontHolds(places, regs, rest);
      UsedIsSize(places[..n], rest);
      if places[n].Some? { OneLess(regs, places[n].value.0); }
    }
  }

  lemma OneLess(regs: map<Key, Entry>, key: Key)
    requires key in regs
    ensures |regs - {key}| == |regs| - 1
  {
    var rest := regs - {key};
    assert regs.Keys == rest.Keys + {key};
    assert |regs| == |regs.Keys| && |rest| == |rest.Keys|;
  }

  /** There is a free place exactly when not all are used. */
  lemma {:induction false} UsedIsFull(places: seq<Place>)
    ensures Used(places) == |places| <==> forall i | 0 <= i < |places| :: places[i].Some?
    decreases |places|
  {
    if places != [] {
      var front := places[..|places| - 1];
      UsedIsFull(front);
      if forall i | 0 <= i < |front| :: front[i].Some? {
        assert forall i | 0 <= i < |front| :: places[i] == front[i];
      } else {
        var i :| 0 <= i < |front| && front[i].None?;
        assert places[i].None?;
      }
    }
  }

  lemma FrontHolds(places: seq<Place>, regs: map<Key, Entry>, rest: map<Key, Entry>)
    requires Holds(places, regs) && places != []
    requires rest == if places[|places| - 1].None? then regs else regs - {places[|places| - 1].value.0}
    ensures Holds(places[..|places| - 1], rest)
  {
    var n := |places| - 1;
    forall key | key in rest ensures exists i :: 0 <= i < n && places[..n][i] == Some((key, rest[key])) {
      var i :| 0 <= i < |places| && places[i] == Some((key, regs[key]));
      assert places[..n][i] == Some((key, rest[key]));
    }
  }

  class EpollSet {
    const places: array<Place>
    var registered: nat
    var epoch: nat
    var active: bool
    ghost var regs: map<Key, Entry>

    ghost predicate Valid()
      reads this, places
    {
      places.Length == MAX_FDS && epoch < EPOCHS && Holds(places[..], regs) && registered == |regs|
    }

    ghost function View(): Table
      reads this
    {
      Table(regs, epoch, active)
    }

    constructor ()
      ensures Valid() && fresh(places) && View() == EMPTY
    {
      places := new Place[MAX_FDS](_ => None);
      registered, epoch, active, regs := 0, 0, false, map[];
    }

    method Find(key: Key) returns (i: Option<nat>)
      requires Valid()
      ensures i.Some? <==> key in regs
      ensures i.Some? ==> i.value < MAX_FDS && places[i.value] == Some((key, regs[key]))
    {
      var n := 0;
      while n < MAX_FDS
        invariant 0 <= n <= MAX_FDS
        invariant forall j | 0 <= j < n :: places[j].None? || places[j].value.0 != key
      {
        if places[n].Some? && places[n].value.0 == key {
          return Some(n);
        }
        n := n + 1;
      }
      assert forall j | 0 <= j < MAX_FDS :: places[..][j] == places[j];
      i := None;
    }

    method FindFree() returns (i: Option<nat>)
      requires Valid()
      ensures i.Some? <==> registered < MAX_FDS
      ensures i.Some? ==> i.value < MAX_FDS && places[i.value].None?
    {
      UsedIsSize(places[..], regs);
      UsedIsFull(places[..]);
      var n := 0;
      while n < MAX_FDS
        invariant 0 <= n <= MAX_FDS
        invariant forall j | 0 <= j < n :: places[..][j].Some?
      {
        if places[n].None? {
          assert places[..][n].None?;
          return Some(n);
        }
        n := n + 1;
      }
      i := None;
    }

    method UnseenAll()
      requires places.Length == MAX_FDS
      modifies places
      ensures |places[..]| == |old(places[..])|
      ensures forall j | 0 <= j < MAX_FDS :: places[..][j] == Unseen(old(places[..])[j])
    {
      var n := 0;
      while n < MAX_FDS
        invariant 0 <= n <= MAX_FDS
        invariant forall j | 0 <= j < n :: places[j] == Unseen(old(places[j]))
        invariant forall j | n <= j < MAX_FDS :: places[j] == old(places[j])
      {
        places[n] := Unseen(places[n]);
        n := n + 1;
      }
    }

    method ForgetEpochs()
      requires Valid()
      modifies this`regs, places
      ensures Valid() && regs == map key | key in old(regs) :: old(regs)[key].(seen := 0)
    {
      UnseenAll();
      UnseenHolds(old(places[..]), regs, places[..]);
      regs := map key | key in regs :: regs[key].(seen := 0);
    }

    method BeginEpoch() returns (ok: bool)
      requires Valid()
      modifies this, places
      ensures Valid() && (ok, View()) == Begin(old(View()))
    {
      if active {
        return false;
      }
      var next := NextEpoch(epoch);
      if next == 0 {
        ForgetEpochs();
        next := 1;
      }
      epoch, active := next, true;
      ok := true;
    }

    method Reconcile(k: Kernel, q: Request, refused: bool) returns (ok: bool, k1: Kernel)
      requires Valid()
      modifies this, places
      ensures Valid() && (ok, View(), k1) == ReconcileFd(old(View()), k, q, refused)
    {
      if !active {
        return false, k;
      }
      var ev := Wanted(q.events);
      var at := Find(q.key);
      if at.Some? {
        var e := places[at.value].value.1;
        if e.fd != q.fd {
          return false, k;
        }
        k1 := k;
        if e.events != ev {
          var done := CtlMod(k, q.fd, ev, refused);
          if !done.0 {
            return false, k;
          }
          k1 := done.1;
        }
        SetPlace(at.value, q.key, Entry(q.fd, ev, epoch));
        return true, k1;
      }
      if registered >= MAX_FDS {
        return false, k;
      }
      ok, k1 := Register(k, q, ev, refused);
    }

    method Register(k: Kernel, q: Request, ev: nat, refused: bool) returns (ok: bool, k1: Kernel)
      requires Valid() && q.key !in regs && registered < MAX_FDS
      modifies this`regs, this`registered, places
      ensures Valid() && (ok, k1) == CtlAdd(k, q.fd, ev, refused)
      ensures regs == if ok then old(regs)[q.key := Entry(q.fd, ev, epoch)] else old(regs)
    {
      var at := FindFree();
      var added := CtlAdd(k, q.fd, ev, refused);
      ok, k1 := added.0, added.1;
      if ok {
        FillPlace(at.value, q.key, Entry(q.fd, ev, epoch));
      }
    }

    method FillPlace(i: nat, key: Key, e: Entry)
      requires Valid() && key !in regs && i < MAX_FDS && places[i].None?
      modifies this`regs, this`registered, places
      ensures Valid() && regs == old(regs)[key := e]
    {
      SetPlace(i, key, e);
      registered := registered + 1;
    }

    /** Puts an entry where its key is, or in a free place. */
    method SetPlace(i: nat, key: Key, e: Entry)
      requires places.Length == MAX_FDS && Holds(places[..], regs) && i < MAX_FDS
      requires if key in regs then places[i] == Some((key, regs[key])) else places[i].None?
      modifies this`regs, places
      ensures Holds(places[..], regs) && regs == old(regs)[key := e]
      ensures |regs| == |old(regs)| + if key in old(regs) then 0 else 1
    {
      SetHolds(places[..], regs, i, key, e);
      ghost var was := places[..];
      places[i] := Some((key, e));
      assert places[..] == was[i := Some((key, e))];
      regs := regs[key := e];
    }
  
    /** Whether another registration of this epoch has that number. */
    method FdSeenNow(fd: nat, skip: nat) returns (r: bool)
      requires Valid()
      ensures r <==> exists j :: 0 <= j < MAX_FDS && j != skip && SeenAt(places[..], j, fd, epoch)
    {
      var n := 0;
      while n < MAX_FDS
        invariant 0 <= n <= MAX_FDS
        invariant forall j | 0 <= j < n && j != skip :: !SeenAt(places[..], j, fd, epoch)
      {
        if n != skip && places[n].Some? && places[n].value.1.seen == epoch && places[n].value.1.fd == fd {
          assert SeenAt(places[..], n, fd, epoch);
          return true;
        }
        n := n + 1;
      }
      r := false;
    }

    method ClearPlace(i: nat)
      requires Valid() && i < MAX_FDS && places[i].Some?
      modifies this`regs, this`registered, places
      ensures Valid() && places[..] == old(places[..])[i := None]
      ensures regs == old(regs) - {old(places[i]).value.0}
    {
      ClearHolds(places[..], regs, i);
      OneLess(regs, places[i].value.0);
      ghost var was := places[..];
      regs := regs - {places[i].value.0};
      places[i] := None;
      assert places[..] == was[i := None];
      if registered > 0 {
        registered := registered - 1;
      }
    }

    /** Takes a stale registration's descriptor off the kernel, unless its number is one
        asked for now. */
    method Unregister(i: nat, k: Kernel, refused: set<nat>, failed: bool, ghost t: Table, ghost k0: Kernel)
      returns (k1: Kernel, failed1: bool)
      requires Valid() && i < MAX_FDS && Sweeping(t, regs) && epoch == t.epoch
      requires places[i].Some? && places[i].value.1.seen != epoch
      requires SweptSoFar(t, k0, refused, regs.Keys, k, failed)
      ensures SweptSoFar(t, k0, refused, regs.Keys - {places[i].value.0}, k1, failed1)
    {
      k1, failed1 := k, failed;
      var fd := places[i].value.1.fd;
      var seen := FdSeenNow(fd, i);
      SeenInPlaces(t, places[..], regs, i, fd);
      if !seen {
        var deleted := CtlDel(k, fd, fd in refused);
        if !deleted.0 {
          failed1 := true;
        }
        k1 := deleted.1;
      }
      GoneMore(t, k0, refused, regs.Keys, places[i].value.0, k, failed);
    }

    /** One place of the sweep. */
    method SweepPlace(i: nat, k: Kernel, refused: set<nat>, failed: bool, ghost t: Table, ghost k0: Kernel)
      returns (k1: Kernel, failed1: bool)
      requires Valid() && i < MAX_FDS && Sweeping(t, regs) && epoch == t.epoch
      requires SweptSoFar(t, k0, refused, regs.Keys, k, failed) && SweptUpTo(t, places[..], i)
      modifies this`regs, this`registered, places
      ensures Valid() && Sweeping(t, regs)
      ensures SweptSoFar(t, k0, refused, regs.Keys, k1, failed1) && SweptUpTo(t, places[..], i + 1)
    {
      k1, failed1 := k, failed;
      SweptOne(t, places[..], regs, i);
      if places[i].None? || places[i].value.1.seen == epoch {
        return;
      }
      k1, failed1 := Unregister(i, k, refused, failed, t, k0);
      ghost var left := regs.Keys - {places[i].value.0};
      ClearPlace(i);
      assert regs.Keys == left;
    }

    method EndEpoch(k: Kernel, refused: set<nat>) returns (ok: bool, k1: Kernel)
      requires Valid()
      modifies this, places
      ensures Valid() && (ok, View(), k1) == End(old(View()), k, refused)
    {
      if !active {
        return false, k;
      }
      ghost var t := View();
      var failed := false;
      k1 := k;
      NothingGone(t, k, refused);
      var n := 0;
      while n < MAX_FDS
        invariant 0 <= n <= MAX_FDS && Valid() && epoch == t.epoch && Sweeping(t, regs)
        invariant SweptSoFar(t, k, refused, regs.Keys, k1, failed) && SweptUpTo(t, places[..], n)
      {
        k1, failed := SweepPlace(n, k1, refused, failed, t, k);
        n := n + 1;
      }
      AllSwept(t, k, refused, places[..], regs, k1, failed);
      active := false;
      ok := !failed;
    }
  }

  /** The first n places are of this epoch or free. */
  ghost predicate SweptUpTo(t: Table, places: seq<Place>, n: nat) {
    forall j | 0 <= j < n && j < |places| :: places[j].Some? ==> Current(t, places[j].value.0)
  }

  lemma SweptOne(t: Table, places: seq<Place>, regs: map<Key, Entry>, i: nat)
    requires Holds(places, regs) && Sweeping(t, regs) && i < |places| && SweptUpTo(t, places, i)
    ensures SweptUpTo(t, if places[i].None? || places[i].value.1.seen == t.epoch then places else places[i := None], i + 1)
    ensures places[i].Some? && places[i].value.1.seen != t.epoch ==> Sweeping(t, regs - {places[i].value.0})
  {
  }

  predicate SeenAt(places: seq<Place>, j: nat, fd: nat, epoch: nat) {
    j < |places| && places[j].Some? && places[j].value.1.seen == epoch && places[j].value.1.fd == fd
  }

  /** Part of the sweep of t is done: only stale registrations have gone. */
  ghost predicate Sweeping(t: Table, regs: map<Key, Entry>) {
    && (forall key | key in regs :: key in t.regs && regs[key] == t.regs[key])
    && (forall key | Current(t, key) :: key in regs)
  }

  ghost function Gone(t: Table, left: set<Key>): set<nat> {
    set key | key in t.regs && key !in left && !SeenNow(t, t.regs[key].fd) :: t.regs[key].fd
  }

  ghost predicate SweptSoFar(t: Table, k0: Kernel, refused: set<nat>, left: set<Key>, k: Kernel, failed: bool) {
    var gone := Gone(t, left);
    k == k0.(interest := k0.interest - (gone - refused)) && (failed <==> gone * refused != {})
  }

  lemma NothingGone(t: Table, k: Kernel, refused: set<nat>)
    ensures Sweeping(t, t.regs) && SweptSoFar(t, k, refused, t.regs.Keys, k, false)
  {
    assert Gone(t, t.regs.Keys) == {};
    assert k.interest - ({} - refused) == k.interest;
  }

  lemma GoneMore(t: Table, k0: Kernel, refused: set<nat>, left: set<Key>, key: Key, k: Kernel, failed: bool)
    requires key in t.regs && key in left && SweptSoFar(t, k0, refused, left, k, failed)
    ensures var fd := t.regs[key].fd;
            if SeenNow(t, fd) then SweptSoFar(t, k0, refused, left - {key}, k, failed)
            else SweptSoFar(t, k0, refused, left - {key}, CtlDel(k, fd, fd in refused).1, failed || fd in refused)
  {
    var fd := t.regs[key].fd;
    var gone, more := Gone(t, left), Gone(t, left - {key});
    if SeenNow(t, fd) {
      assert more == gone;
    } else {
      assert more == gone + {fd};
      if fd in refused {
        assert fd in more * refused && more - refused == gone - refused;
      } else {
        assert more * refused == gone * refused;
        assert k0.interest - (more - refused) == k0.interest - (gone - refused) - {fd};
      }
    }
  }

  lemma SeenInPlaces(t: Table, places: seq<Place>, regs: map<Key, Entry>, i: nat, fd: nat)
    requires Holds(places, regs) && Sweeping(t, regs)
    requires i < |places| && places[i].Some? && places[i].value.1.seen != t.epoch
    ensures (exists j :: 0 <= j < |places| && j != i && SeenAt(places, j, fd, t.epoch)) <==> SeenNow(t, fd)
  {
    if j :| 0 <= j < |places| && j != i && SeenAt(places, j, fd, t.epoch) {
      assert Current(t, places[j].value.0);
    }
    if SeenNow(t, fd) {
      var key :| Current(t, key) && t.regs[key].fd == fd;
      var j :| 0 <= j < |places| && places[j] == Some((key, regs[key]));
      assert SeenAt(places, j, fd, t.epoch);
    }
  }

  lemma AllSwept(t: Table, k0: Kernel, refused: set<nat>, places: seq<Place>, regs: map<Key, Entry>, k: Kernel, failed: bool)
    requires Holds(places, regs) && Sweeping(t, regs) && SweptSoFar(t, k0, refused, regs.Keys, k, failed)
    requires SweptUpTo(t, places, |places|) && t.active
    ensures (!failed, Table(regs, t.epoch, false), k) == End(t, k0, refused)
  {
    forall key | key in regs ensures Current(t, key) {
      var j :| 0 <= j < |places| && places[j] == Some((key, regs[key]));
    }
    assert regs == Kept(t).regs;
    assert Gone(t, regs.Keys) == Swept(t);
  }

  lemma ClearHolds(places: seq<Place>, regs: map<Key, Entry>, i: nat)
    requires Holds(places, regs) && i < |places| && places[i].Some?
    ensures Holds(places[i := None], regs - {places[i].value.0})
  {
    var after, rest := places[i := None], regs - {places[i].value.0};
    forall key | key in rest ensures exists j :: 0 <= j < |after| && after[j] == Some((key, rest[key])) {
      var j :| 0 <= j < |places| && places[j] == Some((key, regs[key]));
      assert after[j] == Some((key, rest[key]));
    }
  }

  lemma SetHolds(places: seq<Place>, regs: map<Key, Entry>, i: nat, key: Key, e: Entry)
    requires Holds(places, regs) && i < |places|
    requires if key in regs then places[i] == Some((key, regs[key])) else places[i].None?
    ensures Holds(places[i := Some((key, e))], regs[key := e])
    ensures |regs[key := e]| == |regs| + if key in regs then 0 else 1
  {
    SetFound(places, regs, i, key, e);
    SetApart(places, regs, i, key, e);
    SetSize(regs, key, e);
  }

  lemma SetSize(regs: map<Key, Entry>, key: Key, e: Entry)
    ensures |regs[key := e]| == |regs| + if key in regs then 0 else 1
  {
    var more := regs[key := e];
    assert more.Keys == regs.Keys + {key};
    assert |more| == |more.Keys| && |regs| == |regs.Keys|;
  }

  lemma SetFound(places: seq<Place>, regs: map<Key, Entry>, i: nat, key: Key, e: Entry)
    requires Holds(places, regs) && i < |places|
    requires if key in regs then places[i] == Some((key, regs[key])) else places[i].None?
    ensures var after, more := places[i := Some((key, e))], regs[key := e];
            forall x | x in more :: exists j :: 0 <= j < |after| && after[j] == Some((x, more[x]))
  {
    var after, more := places[i := Some((key, e))], regs[key := e];
    forall x | x in more ensures exists j :: 0 <= j < |after| && after[j] == Some((x, more[x])) {
      if x == key {
        assert after[i] == Some((x, more[x]));
      } else {
        var j :| 0 <= j < |places| && places[j] == Some((x, regs[x]));
        assert after[j] == Some((x, more[x]));
      }
    }
  }

  lemma SetApart(places: seq<Place>, regs: map<Key, Entry>, i: nat, key: Key, e: Entry)
    requires Holds(places, regs) && i < |places|
    requires if key in regs then places[i] == Some((key, regs[key])) else places[i].None?
    ensures var after := places[i := Some((key, e))];
            forall j | 0 <= j < |after| && j != i && after[j].Some? :: after[j].value.0 != key
  {
    var after := places[i := Some((key, e))];
    forall j | 0 <= j < |after| && j != i && after[j].Some? ensures after[j].value.0 != key {
      assert after[j] == places[j];
    }
  }

  function Unseen(p: Place): Place {
    if p.None? then None else Some((p.value.0, p.value.1.(seen := 0)))
  }

  lemma UnseenHolds(before: seq<Place>, regs: map<Key, Entry>, after: seq<Place>)
    requires Holds(before, regs) && |after| == |before| && forall i | 0 <= i < |before| :: after[i] == Unseen(before[i])
    ensures var unseen := map key | key in regs :: regs[key].(seen := 0);
            Holds(after, unseen) && |unseen| == |regs|
  {
    var unseen := map key | key in regs :: regs[key].(seen := 0);
    SameSize(unseen, regs);
    forall key | key in unseen ensures exists i :: 0 <= i < |after| && after[i] == Some((key, unseen[key])) {
      var i :| 0 <= i < |before| && before[i] == Some((key, regs[key]));
      assert after[i] == Some((key, unseen[key]));
    }
  }
}
