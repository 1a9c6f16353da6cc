/** The scheduler object over the heap list: every method is the step of the
    state machine it stands for. */
module CoroutineScheduler {
  import opened RingList
  import opened Collections
  import opened CoroutineModel

  ghost function Ids(ring: seq<Node>): seq<nat> {
    seq(|ring|, i requires 0 <= i < |ring| => ring[i].id)
  }

  lemma NodesWithout(ring: seq<Node>, k: nat)
    requires k < |ring| && NoDup(ring)
    ensures ring[k] !in ring[..k] + ring[k + 1..]
    ensures forall n <- ring :: n == ring[k] || n in ring[..k] + ring[k + 1..]
  {
    NoDupWithout(ring, k);
    assert ring == ring[..k] + [ring[k]] + ring[k + 1..];
  }

  lemma IdsWithout(ring: seq<Node>, k: nat)
    requires k < |ring|
    ensures Ids(ring[..k] + ring[k + 1..]) == Ids(ring)[..k] + Ids(ring)[k + 1..]
  {
  }

  ghost function Actives(nodes: seq<Node>): seq<bool>
    reads nodes
  {
    seq(|nodes|, i requires 0 <= i < |nodes| reads nodes => nodes[i].active)
  }

  class SScheduler {
    const chain: LinkedList
    var routines: seq<Node>
    var cur: Node
    var pending: seq<nat>
    var futures: seq<Future>
    /** An assertion failed, which ends the program. */
    var broken: bool
    ghost var exited: set<nat>
    ghost var waited: nat
    ghost var promised: nat

    ghost predicate Valid()
      reads this, chain, chain.ring, routines
    {
      && chain.Valid() && chain.ring != []
      && |pending| == MAX_ROUTINES && |routines| <= MAX_ROUTINES
      && (forall i :: 0 <= i < |routines| ==> routines[i].id == i)
      && (forall n <- chain.ring :: n in routines && n.id < |routines| && routines[n.id] == n)
      && cur in chain.ring
      && (forall f <- futures :: f.cid < |routines|)
    }

    ghost function Model(): State
      reads this, chain, routines
    {
      State(Ids(chain.ring), cur.id, Actives(routines), pending, futures, exited, broken, waited, promised)
    }

    /** Spawns the polling coroutine, which becomes header and current. */
    constructor ()
      ensures Valid() && Model() == Initial()
    {
      var list := new LinkedList();
      var n := new Node(0);
      list.Add(n);
      chain := list;
      routines := [n];
      cur := n;
      pending := seq(MAX_ROUTINES, _ => 0);
      futures, exited, broken, waited, promised := [], {}, false, 0, 0;
    }

    lemma ValidWellFormed()
      requires Valid()
      ensures WellFormed(Model())
    {
      var k :| 0 <= k < |chain.ring| && chain.ring[k] == cur;
      assert Ids(chain.ring)[k] == cur.id;
    }

    /** The position of the running coroutine in the ring, and its successor. */
    lemma CurrentAt(k: nat)
      requires Valid() && cur.id in Ids(chain.ring) && k == IndexOf(Ids(chain.ring), cur.id)
      ensures k < |chain.ring| && chain.ring[k] == cur
      ensures After(Ids(chain.ring), cur.id) == (if k + 1 == |chain.ring| then chain.ring[0] else chain.ring[k + 1]).id
      ensures cur.next == if k + 1 == |chain.ring| then chain.ring[0] else chain.ring[k + 1]
    {
      assert chain.ring[k].id == cur.id;
    }

    method Spawn() returns (cid: nat)
      requires Valid()
      modifies this, chain, routines
      ensures Valid() && Model() == CoroutineModel.Spawn(old(Model()))
      ensures cid == old(|routines|)
    {
      hide Linked;
      cid := |routines|;
      if cid < MAX_ROUTINES {
        var n := new Node(cid);
        assert chain.tailer in chain.ring;
        chain.Add(n);
        routines := routines + [n];
        assert Ids(chain.ring) == old(Ids(chain.ring)) + [cid];
        assert Actives(routines) == old(Actives(routines)) + [false];
      }
    }

    method WaitNum(id: nat, num: nat)
      requires Valid() && id < |routines|
      modifies this`pending, this`waited
      ensures Valid() && Model() == CoroutineModel.WaitNum(old(Model()), id, num)
    {
      pending := pending[id := pending[id] + num];
      waited := waited + num;
    }

    method EmplaceFuture(f: Future)
      requires Valid() && f.cid < |routines|
      modifies this`futures, this`promised
      ensures Valid() && Model() == CoroutineModel.EmplaceFuture(old(Model()), f)
    {
      futures := futures + [f];
      promised := promised + f.left;
    }

    method EmplaceForRoutine(id: nat, num: nat)
      requires Valid() && id < |routines|
      modifies this`pending, this`futures, this`waited, this`promised
      ensures Valid() && Model() == CoroutineModel.EmplaceForRoutine(old(Model()), id, num)
    {
      WaitNum(id, num);
      EmplaceFuture(Future(id, num));
    }

    /** `execute`: the coroutine becomes active and gets control. */
    method Execute(n: Node)
      requires chain.Valid() && n in routines && n.id < |routines| && routines[n.id] == n
      requires forall i :: 0 <= i < |routines| ==> routines[i].id == i
      modifies this`cur, n`active
      ensures cur == n && chain.Valid()
      ensures Actives(routines) == old(Actives(routines))[n.id := true]
    {
      cur := n;
      n.active := true;
    }

    method YieldToNext()
      requires Valid()
      modifies this`cur, routines
      ensures Valid() && WellFormed(old(Model())) && Model() == CoroutineModel.YieldToNext(old(Model()))
    {
      ValidWellFormed();
      CurrentAt(IndexOf(Ids(chain.ring), cur.id));
      var next := cur.next;
      assert next in chain.ring;
      if next != cur {
        Execute(next);
      }
    }

    /** `leave_one` on the running coroutine, which is not the header. */
    method LeaveCurrent() returns (next: Node)
      requires Valid() && cur != chain.ring[0]
      modifies chain, routines
      ensures chain.Valid() && chain.ring != []
      ensures old(cur.id in Ids(chain.ring))
      ensures Ids(chain.ring) == old(Remove(Ids(chain.ring), cur.id))
      ensures next.id == old(After(Ids(chain.ring), cur.id)) && next in chain.ring
      ensures forall n <- chain.ring :: n in old(chain.ring)
      ensures cur !in chain.ring && forall n <- old(chain.ring) :: n == cur || n in chain.ring
      ensures Actives(routines) == old(Actives(routines))
    {
      ValidWellFormed();
      ghost var k := IndexOf(Ids(chain.ring), cur.id);
      CurrentAt(k);
      assert chain.ring[k - 1] in chain.ring && chain.ring[0] in chain.ring;
      IdsWithout(chain.ring, k);
      NodesWithout(chain.ring, k);
      hide Linked, NoDup, Remove, After;
      next := chain.LeaveOne(cur, k);
      assert next == chain.ring[if k == |chain.ring| then 0 else k];
    }

    /** The running coroutine leaves and its successor runs. */
    method SwitchAway()
      requires Valid() && cur != chain.ring[0]
      modifies this`cur, chain, routines
      ensures Valid() && WellFormed(old(Model()))
      ensures var s := old(Model());
        Model() == CoroutineModel.Execute(s.(ring := Remove(s.ring, s.cur)), After(s.ring, s.cur))
      ensures old(cur) !in chain.ring && forall n <- old(chain.ring) :: n == old(cur) || n in chain.ring
    {
      ValidWellFormed();
      hide Linked;
      var next := LeaveCurrent();
      Execute(next);
    }

    method PauseAndYield()
      requires Valid() && cur != chain.ring[0]
      modifies this, chain, routines
      ensures Valid() && WellFormed(old(Model())) && Model() == CoroutineModel.PauseAndYield(old(Model()))
    {
      ValidWellFormed();
      cur.active := false;
      assert Actives(routines) == old(Actives(routines)[cur.id := false]);
      hide Linked, Remove, After, IndexOf;
      SwitchAway();
    }

    method Pause()
      requires Valid() && cur != chain.ring[0]
      modifies this, chain, routines
      ensures Valid() && WellFormed(old(Model())) && Model() == CoroutineModel.Pause(old(Model()))
    {
      ValidWellFormed();
      if pending[cur.id] > 0 {
        PauseAndYield();
      }
    }

    /** The node is unlinked and freed; the successor runs. */
    method Exit()
      requires Valid() && cur != chain.ring[0]
      modifies this, chain, routines
      ensures Valid() && WellFormed(old(Model())) && Model() == CoroutineModel.Exit(old(Model()))
      ensures old(cur) !in chain.ring && forall n <- old(chain.ring) :: n == old(cur) || n in chain.ring
    {
      ValidWellFormed();
      hide Linked, Remove, After, IndexOf;
      exited := exited + {cur.id};
      SwitchAway();
    }

    /** Puts a paused coroutine back, if it is not active. */
    method AddBack(c: nat)
      requires Valid() && c < |routines| && (routines[c].active || routines[c] !in chain.ring)
      modifies this`broken, chain, (set n | n in routines)`prev, (set n | n in routines)`next
      ensures Valid() && Model() == CoroutineModel.AddBack(old(Model()), c)
    {
      if routines[c].active {
        broken := true;
        return;
      }
      assert chain.tailer in chain.ring;
      chain.Add(routines[c]);
      assert Ids(chain.ring) == old(Ids(chain.ring)) + [c];
      assert Actives(routines) == old(Actives(routines));
    }

    method CreditRoutine(c: nat, num: nat, fs: seq<Future>)
      requires Valid() && WellFormed(Model())
      requires c < |routines| && num == pending[c] ==> routines[c].active || routines[c] !in chain.ring
      requires forall f <- fs :: f.cid < |routines|
      modifies this`pending, this`futures, this`broken, chain, routines
      ensures Valid() && Model() == Credit(old(Model()), c, num, fs)
    {
      if c >= |routines| || pending[c] < num {
        broken := true;
        return;
      }
      pending := pending[c := pending[c] - num];
      futures := fs;
      if pending[c] == 0 {
        AddBack(c);
      }
    }

    /** An error: the coroutine is marked and comes back, its count untouched. */
    method FailRoutine(c: nat, fs: seq<Future>)
      requires Valid() && c < |routines| && (routines[c].active || routines[c] !in chain.ring)
      requires forall f <- fs :: f.cid < |routines|
      modifies this`futures, this`broken, chain, routines
      ensures Valid() && Model() == CoroutineModel.AddBack(old(Model()).(futures := fs), c)
      ensures routines[c].failed
    {
      routines[c].failed := true;
      futures := fs;
      assert Actives(routines) == old(Actives(routines));
      AddBack(c);
    }

    lemma RingIds(c: nat)
      requires Valid() && c < |routines|
      ensures routines[c] in chain.ring <==> c in Ids(chain.ring)
    {
      assert forall k :: 0 <= k < |chain.ring| ==> Ids(chain.ring)[k] == chain.ring[k].id;
      if c in Ids(chain.ring) {
        var k :| 0 <= k < |chain.ring| && Ids(chain.ring)[k] == c;
        assert chain.ring[k] in chain.ring;
      }
    }

    /** Handles one report of the future at position i, whichever coroutine it is
        about: an error ejects the future, marks the coroutine and puts it back
        without touching its count, and a report of too much, about nobody or
        about an active coroutine fails an assertion. */
    method HandleReport(i: nat, r: Report)
      requires Valid() && WellFormed(Model()) && i < |futures| && Addable(Model(), r)
      modifies this`pending, this`futures, this`broken, chain, routines
      ensures Valid() && Model() == PollAt(old(Model()), i, r)
      ensures r.Err? && r.cid < |routines| ==> routines[r.cid].failed
    {
      if !r.NotReady? && r.cid < |routines| {
        RingIds(r.cid);
        assert Actives(routines)[r.cid] == routines[r.cid].active;
      }
      assert forall g <- futures :: g.cid < |routines|;
      hide Valid, CoroutineModel.AddBack, Credit;
      assert forall g <- Without(futures, i) :: g in futures;
      match r
      case NotReady =>
      case NearOk(c, n) =>
        CreditRoutine(c, n, futures[i := Spend(futures[i], n)]);
      case Ok(c, n) =>
        CreditRoutine(c, n, Without(futures, i));
      case Err(c) =>
        if c >= |routines| {
          broken := true;
        } else {
          FailRoutine(c, Without(futures, i));
        }
    }

    /** Polls every registered future once, errors included; `reports` is what they
        answer. */
    method PollAllFutures(reports: seq<Report>)
      requires Valid() && WellFormed(Model()) && AddableFrom(Model(), 0, reports)
      modifies this`pending, this`futures, this`broken, chain, routines
      ensures Valid() && Model() == PollFrom(old(Model()), 0, reports)
    {
      hide PollAt, WellFormed, Valid, PollFrom, Addable;
      var i: nat, k: nat := 0, 0;
      assert reports[0..] == reports;
      while i < |futures| && !broken
        invariant Valid() && WellFormed(Model()) && routines == old(routines)
        invariant k <= |reports| && AddableFrom(Model(), i, reports[k..])
        invariant PollFrom(Model(), i, reports[k..]) == PollFrom(old(Model()), 0, reports)
        decreases |reports| - k
      {
        assert reports[k..] != [] && Addable(Model(), reports[k..][0]);
        PollAtWellFormed(Model(), i, reports[k..][0]);
        PollFromStep(i, reports[k..]);
        assert reports[k..][1..] == reports[k + 1..];
        HandleReport(i, reports[k]);
        i := i + Advance(reports[k]);
        k := k + 1;
      }
      PollFromEnd(i, reports[k..]);
    }

    lemma PollFromStep(i: nat, rs: seq<Report>)
      requires WellFormed(Model()) && i < |futures| && !broken && rs != []
      ensures WellFormed(PollAt(Model(), i, rs[0]))
      ensures PollFrom(Model(), i, rs) == PollFrom(PollAt(Model(), i, rs[0]), i + Advance(rs[0]), rs[1..])
    {
      PollAtWellFormed(Model(), i, rs[0]);
    }

    lemma PollFromEnd(i: nat, rs: seq<Report>)
      requires WellFormed(Model()) && (i >= |futures| || broken)
      ensures PollFrom(Model(), i, rs) == Model()
    {
    }
  }
}
