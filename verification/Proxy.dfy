/** Delivery. The alarms of a proxied uid are buffered instead of called back, in order, until
    the proxy is lifted or reset. `invoked` is the trace of the callbacks made so far. */
module Proxying {
  import opened Units
  import opened TimerInfos
  import opened Batches
  import opened BatchLists

  datatype Proxy = Proxy(uids: set<int>, pending: map<int, seq<TimerInfo>>, invoked: seq<TimerInfo>)

  function Pending(p: Proxy, uid: int): seq<TimerInfo> {
    if uid in p.pending then p.pending[uid] else []
  }

  /** CallbackAlarmIfNeed, with the null-callback test DeliverTimersLocked puts in front. */
  function Deliver(p: Proxy, a: TimerInfo): Proxy {
    if !a.hasCallback then p
    else if a.uid !in p.uids then p.(invoked := p.invoked + [a])
    else p.(pending := p.pending[a.uid := Pending(p, a.uid) + [a]])
  }

  /** DeliverTimersLocked. */
  function DeliverAll(p: Proxy, alarms: seq<TimerInfo>): Proxy
    decreases |alarms|
  {
    if alarms == [] then p else DeliverAll(Deliver(p, alarms[0]), alarms[1..])
  }

  /** The callbacks a loop over `alarms` makes, skipping null ones. */
  function Calls(alarms: seq<TimerInfo>): seq<TimerInfo> {
    if alarms == [] then []
    else
      var n := |alarms| - 1;
      Calls(alarms[..n]) + (if alarms[n].hasCallback then [alarms[n]] else [])
  }

  /** TimerManager::ProxyTimer. */
  function ProxyTimer(p: Proxy, uid: int, isProxy: bool, needRetrigger: bool): (Proxy, bool) {
    if isProxy then (p.(uids := p.uids + {uid}), true)
    else if uid !in p.uids then (p, false)
    else
      var calls := if needRetrigger then Calls(Pending(p, uid)) else [];
      (Proxy(p.uids - {uid}, p.pending - {uid}, p.invoked + calls), true)
  }

  lemma EmptyByMembers(s: set<int>)
    ensures (forall k: int :: k !in s) ==> s == {}
  {
    if forall k: int :: k !in s {
      assert s == {};
    }
  }

  ghost function AnyKey(s: set<int>): (k: int)
    requires s != {}
    ensures k in s
  {
    EmptyByMembers(s);
    var k :| k in s;
    k
  }

  lemma {:induction false} MinExists(s: set<int>)
    requires s != {}
    ensures exists k :: k in s && forall j :: j in s ==> k <= j
    decreases |s|
  {
    var x := AnyKey(s);
    var rest := s - {x};
    if rest == {} {
      assert forall j :: j in s ==> j in rest || j == x;
    } else {
      MinExists(rest);
      var k :| k in rest && forall j :: j in rest ==> k <= j;
      var m := Min(k, x);
      forall j | j in s ensures m <= j {
        assert j in rest || j == x;
      }
      assert m in s;
    }
  }

  function MinKey(s: set<int>): (k: int)
    requires s != {}
    ensures k in s && forall j :: j in s ==> k <= j
  {
    MinExists(s);
    var k :| k in s && forall j :: j in s ==> k <= j;
    k
  }

  /** The callbacks of ResetAllProxy: every buffer, in the order of the std::map. */
  function Flush(pending: map<int, seq<TimerInfo>>): seq<TimerInfo>
    decreases |pending.Keys|
  {
    if pending.Keys == {} then []
    else
      var k := MinKey(pending.Keys);
      assert (pending - {k}).Keys == pending.Keys - {k};
      Calls(pending[k]) + Flush(pending - {k})
  }

  /** TimerManager::ResetAllProxy. */
  function ResetAll(p: Proxy): Proxy {
    Proxy({}, map[], p.invoked + Flush(p.pending))
  }

  /** RemoveProxy. As written the erasures happen in a copy of the buffer, which only matters
      when the copy ends up empty. */
  function RemoveProxy(code: Code, p: Proxy, id: uint64, uid: int): Proxy {
    if uid !in p.pending then p
    else
      var kept := Without(p.pending[uid], id);
      if kept == [] then p.(pending := p.pending - {uid})
      else if code.AsWritten? then p
      else p.(pending := p.pending[uid := kept])
  }

  // ---------------------------------------------------------------- the buffers

  /** Only proxied uids have a buffer, no buffer is empty, and each holds its own uid's alarms. */
  ghost predicate Buffers(p: Proxy) {
    forall uid :: uid in p.pending ==>
      && uid in p.uids && p.pending[uid] != []
      && forall a :: a in p.pending[uid] ==> a.uid == uid && a.hasCallback
  }

  lemma DeliverBuffers(p: Proxy, a: TimerInfo)
    requires Buffers(p)
    ensures Buffers(Deliver(p, a))
  {}

  lemma ProxyTimerBuffers(p: Proxy, uid: int, isProxy: bool, needRetrigger: bool)
    requires Buffers(p)
    ensures var (q, ok) := ProxyTimer(p, uid, isProxy, needRetrigger);
            && Buffers(q)
            && (ok <==> isProxy || uid in p.uids)
            && forall u :: u in q.uids <==> if u == uid then isProxy else u in p.uids
  {}

  lemma RemoveProxyBuffers(code: Code, p: Proxy, id: uint64, uid: int)
    requires Buffers(p)
    ensures Buffers(RemoveProxy(code, p, id, uid))
  {
    if uid in p.pending {
      WithoutMembers(p.pending[uid], id);
    }
  }

  /** Repaired, RemoveProxy filters one buffer and leaves the others; as written it leaves every
      buffer but one that held nothing else. It calls nobody back and lifts no proxy. */
  lemma RemoveProxyExact(code: Code, p: Proxy, id: uint64, uid: int, u: int)
    requires Buffers(p)
    ensures var q := RemoveProxy(code, p, id, uid); q.uids == p.uids && q.invoked == p.invoked
    ensures Pending(RemoveProxy(code, p, id, uid), u) ==
            if u == uid && (code.Repaired? || Without(Pending(p, uid), id) == []) then Without(Pending(p, uid), id)
            else Pending(p, u)
  {}

  /** After RemoveProxy no alarm with the id is buffered for the uid: always when repaired; as
      written exactly when the buffer held none, or nothing else. */
  lemma RemoveProxyClearsIff(code: Code, p: Proxy, id: uint64, uid: int)
    requires Buffers(p)
    ensures (forall a :: a in Pending(RemoveProxy(code, p, id, uid), uid) ==> a.id != id) <==>
            || code.Repaired?
            || (forall a :: a in Pending(p, uid) ==> a.id != id)
            || (forall a :: a in Pending(p, uid) ==> a.id == id)
  {
    if uid in p.pending {
      var kept := Without(p.pending[uid], id);
      WithoutMembers(p.pending[uid], id);
      assert kept == [] <==> forall a :: a in p.pending[uid] ==> a.id == id by {
        if kept != [] {
          assert kept[0] in kept;
        } else {
          assert forall a :: a in p.pending[uid] ==> a !in kept;
        }
      }
    }
  }

  // ---------------------------------------------------------------- per-uid order

  function ForUid(s: seq<TimerInfo>, uid: int): seq<TimerInfo> {
    if s == [] then []
    else
      var n := |s| - 1;
      ForUid(s[..n], uid) + (if s[n].uid == uid then [s[n]] else [])
  }

  lemma {:induction false} ForUidConcat(x: seq<TimerInfo>, y: seq<TimerInfo>, uid: int)
    ensures ForUid(x + y, uid) == ForUid(x, uid) + ForUid(y, uid)
    decreases |y|
  {
    if y == [] {
      assert x + y == x;
    } else {
      var n := |y| - 1;
      assert (x + y)[..|x + y| - 1] == x + y[..n];
      ForUidConcat(x, y[..n], uid);
    }
  }

  lemma ForUidStep(s: seq<TimerInfo>, a: TimerInfo, uid: int)
    ensures ForUid(s + [a], uid) == if a.uid == uid then ForUid(s, uid) + [a] else ForUid(s, uid)
  {
    assert (s + [a])[..|s|] == s;
  }

  /** A buffer is called back whole, in order, and belongs to one uid only. */
  lemma {:induction false} CallsOfBuffer(s: seq<TimerInfo>, owner: int, uid: int)
    requires forall a :: a in s ==> a.uid == owner && a.hasCallback
    ensures Calls(s) == s
    ensures ForUid(s, uid) == if owner == uid then s else []
    decreases |s|
  {
    if s != [] {
      var n := |s| - 1;
      assert s[n] in s && s == s[..n] + [s[n]];
      CallsOfBuffer(s[..n], owner, uid);
    }
  }

  lemma {:induction false} FlushForUid(pending: map<int, seq<TimerInfo>>, uid: int)
    requires forall u :: u in pending ==> forall a :: a in pending[u] ==> a.uid == u && a.hasCallback
    ensures ForUid(Flush(pending), uid) == if uid in pending then pending[uid] else []
    decreases |pending.Keys|
  {
    if pending.Keys != {} {
      var k := MinKey(pending.Keys);
      var rest := pending - {k};
      assert rest.Keys == pending.Keys - {k};
      FlushForUid(rest, uid);
      CallsOfBuffer(pending[k], k, uid);
      ForUidConcat(Calls(pending[k]), Flush(rest), uid);
    } else {
      assert uid !in pending;
    }
  }

  ghost predicate AscendingUids(s: seq<TimerInfo>) {
    forall i, j :: 0 <= i < j < |s| ==> s[i].uid <= s[j].uid
  }

  /** The buffers are called back one uid after the other, the smallest first. */
  lemma {:induction false} FlushAscends(pending: map<int, seq<TimerInfo>>)
    requires forall u :: u in pending ==> forall a :: a in pending[u] ==> a.uid == u && a.hasCallback
    ensures AscendingUids(Flush(pending))
    ensures forall a :: a in Flush(pending) ==> a.uid in pending
    decreases |pending.Keys|
  {
    if pending.Keys != {} {
      var k := MinKey(pending.Keys);
      var rest := pending - {k};
      assert rest.Keys == pending.Keys - {k};
      FlushAscends(rest);
      CallsOfBuffer(pending[k], k, k);
      AscendingConcat(pending[k], Flush(rest), k);
    }
  }

  lemma AscendingConcat(x: seq<TimerInfo>, y: seq<TimerInfo>, uid: int)
    requires AscendingUids(y) && (forall a :: a in x ==> a.uid == uid) && (forall a :: a in y ==> uid <= a.uid)
    ensures AscendingUids(x + y)
    ensures forall a :: a in x + y <==> a in x || a in y
  {
    var z := x + y;
    forall i, j | 0 <= i < j < |z| ensures z[i].uid <= z[j].uid {
      assert if i < |x| then z[i] in x else z[i] == y[i - |x|];
      assert if j < |x| then z[j] in x else z[j] == y[j - |x|] && y[j - |x|] in y;
    }
  }

  /** What a uid has been called back for, followed by what waits for it. */
  function Served(p: Proxy, uid: int): seq<TimerInfo> {
    ForUid(p.invoked, uid) + Pending(p, uid)
  }

  /** Delivering an alarm appends it to what its own uid is served and to nobody else's. */
  lemma DeliverServes(p: Proxy, a: TimerInfo, uid: int)
    requires Buffers(p)
    ensures Served(Deliver(p, a), uid) ==
            if a.hasCallback && a.uid == uid then Served(p, uid) + [a] else Served(p, uid)
  {
    ForUidStep(p.invoked, a, uid);
    var q := Deliver(p, a);
    if a.hasCallback && a.uid in p.uids {
      assert Pending(q, uid) == if a.uid == uid then Pending(p, uid) + [a] else Pending(p, uid);
      assert ForUid(p.invoked, uid) + (Pending(p, uid) + [a]) == Served(p, uid) + [a];
    } else if a.hasCallback && a.uid == uid {
      assert Pending(p, uid) == [];
    }
  }

  /** It is called back at once exactly if its uid is not proxied. */
  lemma DeliverCalls(p: Proxy, a: TimerInfo, uid: int)
    ensures ForUid(Deliver(p, a).invoked, uid) ==
            if a.hasCallback && a.uid == uid && uid !in p.uids then ForUid(p.invoked, uid) + [a] else ForUid(p.invoked, uid)
    ensures Deliver(p, a).uids == p.uids
  {
    ForUidStep(p.invoked, a, uid);
  }

  /** A proxy call calls nobody back but the uid whose proxy it lifts. */
  lemma ProxyTimerCalls(p: Proxy, target: int, isProxy: bool, needRetrigger: bool, uid: int)
    requires Buffers(p) && (isProxy || target != uid || uid !in p.uids)
    ensures ForUid(ProxyTimer(p, target, isProxy, needRetrigger).0.invoked, uid) == ForUid(p.invoked, uid)
  {
    if !isProxy && target in p.uids {
      CallsOfBuffer(Pending(p, target), target, uid);
      ForUidConcat(p.invoked, if needRetrigger then Calls(Pending(p, target)) else [], uid);
    }
  }

  /** Lifting a proxy with retrigger serves every uid exactly what was owed to it, in order;
      without, it drops the tail that was waiting. */
  lemma ProxyTimerServes(p: Proxy, target: int, isProxy: bool, needRetrigger: bool, uid: int)
    requires Buffers(p)
    ensures var q := ProxyTimer(p, target, isProxy, needRetrigger).0;
            && Served(q, uid) == (if !isProxy && !needRetrigger && target == uid then ForUid(p.invoked, uid)
                                  else Served(p, uid))
            && (!isProxy && target == uid ==> Pending(q, uid) == [])
  {
    if !isProxy && target in p.uids {
      if needRetrigger {
        CallsOfBuffer(Pending(p, target), target, uid);
        ForUidConcat(p.invoked, Calls(Pending(p, target)), uid);
      } else {
        assert p.invoked + [] == p.invoked;
      }
    }
  }

  /** Resetting all proxies serves every uid exactly what was owed to it and leaves none proxied. */
  lemma ResetAllServes(p: Proxy, uid: int)
    requires Buffers(p)
    ensures uid !in ResetAll(p).uids
    ensures Served(ResetAll(p), uid) == ForUid(ResetAll(p).invoked, uid) == Served(p, uid)
  {
    FlushForUid(p.pending, uid);
    ForUidConcat(p.invoked, Flush(p.pending), uid);
  }

  // ---------------------------------------------------------------- subsequences

  ghost predicate Subseq<T>(s: seq<T>, t: seq<T>)
    decreases |t|
  {
    if s == [] then true
    else if t == [] then false
    else
      var n, m := |s| - 1, |t| - 1;
      (s[n] == t[m] && Subseq(s[..n], t[..m])) || Subseq(s, t[..m])
  }

  lemma {:induction false} SubseqRefl<T>(s: seq<T>)
    ensures Subseq(s, s)
    decreases |s|
  {
    if s != [] {
      SubseqRefl(s[..|s| - 1]);
    }
  }

  lemma {:induction false} SubseqTrans<T>(r: seq<T>, s: seq<T>, t: seq<T>)
    requires Subseq(r, s) && Subseq(s, t)
    ensures Subseq(r, t)
    decreases |s| + |t|
  {
    if r != [] {
      var k, n, m := |r| - 1, |s| - 1, |t| - 1;
      if Subseq(s, t[..m]) {
        SubseqTrans(r, s, t[..m]);
      } else if Subseq(r, s[..n]) {
        SubseqTrans(r, s[..n], t[..m]);
      } else {
        SubseqTrans(r[..k], s[..n], t[..m]);
      }
    }
  }

  lemma SubseqAppend<T>(s: seq<T>, t: seq<T>, a: T)
    requires Subseq(s, t)
    ensures Subseq(s + [a], t + [a])
    ensures Subseq(s, t + [a])
  {
    assert (s + [a])[..|s|] == s && (t + [a])[..|t|] == t;
  }

  lemma {:induction false} SubseqPrefix<T>(x: seq<T>, y: seq<T>)
    ensures Subseq(x, x + y)
    decreases |y|
  {
    if y == [] {
      assert x + y == x;
      SubseqRefl(x);
    } else {
      var n := |y| - 1;
      assert (x + y)[..|x + y| - 1] == x + y[..n];
      SubseqPrefix(x, y[..n]);
    }
  }

  lemma {:induction false} SubseqWithout(x: seq<TimerInfo>, y: seq<TimerInfo>, id: uint64)
    ensures Subseq(x + Without(y, id), x + y)
    decreases |y|
  {
    if y == [] {
      assert x + Without(y, id) == x && x + y == x;
      SubseqRefl(x);
    } else {
      var n := |y| - 1;
      var kept := Without(y[..n], id);
      assert x + y == (x + y[..n]) + [y[n]];
      SubseqWithout(x, y[..n], id);
      SubseqAppend(x + kept, x + y[..n], y[n]);
      if y[n].id == id {
        assert Without(y, id) == kept;
      } else {
        assert x + Without(y, id) == (x + kept) + [y[n]];
      }
    }
  }

  /** Removing a timer's buffered alarms only takes alarms out of what its uid is served. */
  lemma RemoveProxyServes(code: Code, p: Proxy, id: uint64, target: int, uid: int)
    ensures Subseq(Served(RemoveProxy(code, p, id, target), uid), Served(p, uid))
  {
    var q := RemoveProxy(code, p, id, target);
    var x := ForUid(p.invoked, uid);
    if target == uid && uid in p.pending && q != p {
      SubseqWithout(x, p.pending[uid], id);
      assert Served(q, uid) == x + Without(p.pending[uid], id);
    } else {
      assert Served(q, uid) == Served(p, uid);
      SubseqRefl(Served(p, uid));
    }
  }
}
