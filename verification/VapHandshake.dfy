/**
  Agreement of the two ends of a tunnel.  For nodes a and b, in every run in which a gets no link failure for b,
  a completed VAP at a and the WTP at b mirror each other; without that condition the half that b dictates
  still agrees, and re-creating a VAP after a link failure is shown to break the other half.
 */
module VapHandshake {
  import opened Agent
  import opened Cran
  import opened CranNetwork

  function LocalVap(a: App, nb: Host): (r: Option<Vap>)
  {
    Lookup(a.localVaps, nb)
  }

  function RemoteVap(a: App, nb: Host): (r: Option<Vap>)
  {
    Lookup(a.remoteVaps, nb)
  }

  // ---------------------------------------------------------------- what the manager does to an entry

  function Lookup(vaps: seq<Vap>, x: Host): (r: Option<Vap>)
  {
    var i := FindVap(vaps, x);
    if i.Some? then Some(vaps[i.value]) else None
  }

  lemma LookupAppend(vaps: seq<Vap>, v: Vap, x: Host)
    ensures Lookup(vaps + [v], x) == if Lookup(vaps, x).Some? then Lookup(vaps, x)
                                     else if v.neighbor == x then Some(v) else None
  {
    var i, j := FindVap(vaps, x), FindVap(vaps + [v], x);
    if i.Some? {
      assert (vaps + [v])[i.value] == vaps[i.value];
    } else if v.neighbor == x {
      assert (vaps + [v])[|vaps|] == v;
    }
  }

  lemma LookupUpdate(vaps: seq<Vap>, k: nat, v: Vap, x: Host)
    requires k < |vaps| && v.neighbor == vaps[k].neighbor && FindVap(vaps, v.neighbor) == Some(k)
    ensures Lookup(vaps[k := v], x) == if x == v.neighbor then Some(v) else Lookup(vaps, x)
  {
    var i, j := FindVap(vaps, x), FindVap(vaps[k := v], x);
    if i.Some? {
      assert vaps[k := v][i.value].neighbor == x;
    }
    if j.Some? {
      assert vaps[j.value].neighbor == x;
    }
  }

  lemma LookupRemove(vaps: seq<Vap>, k: nat, x: Host)
    requires k < |vaps| && vaps[k].neighbor != x
    ensures Lookup(vaps[..k] + vaps[k + 1..], x) == Lookup(vaps, x)
  {
    var rest := vaps[..k] + vaps[k + 1..];
    var i, j := FindVap(vaps, x), FindVap(rest, x);
    if i.Some? {
      assert rest[if i.value < k then i.value else i.value - 1] == vaps[i.value];
    }
    if j.Some? {
      assert vaps[if j.value < k then j.value else j.value + 1] == rest[j.value];
    }
  }

  lemma InitializeEntry(a: App, nb: Host, x: Host)
    ensures var r := InitializeLocalVap(a, nb).app;
            && RemoteVap(r, x) == RemoteVap(a, x)
            && LocalVap(r, x) == if x == nb && LocalVap(a, x).None? then Some(FreshVap(a, nb, None))
                                 else LocalVap(a, x)
  {
    LookupAppend(a.localVaps, FreshVap(a, nb, None), x);
  }

  lemma CreateEntry(a: App, peer: Host, ids: Ids, x: Host)
    ensures var r := CreateRemoteVap(a, peer, ids).app;
            && LocalVap(r, x) == LocalVap(a, x)
            && (x != peer || RemoteVap(a, x).Some? ==> RemoteVap(r, x) == RemoteVap(a, x))
            && (x == peer && RemoteVap(a, x).None? ==>
                  && RemoteVap(r, x).Some? && RemoteVap(r, x).value.remote == Some(ids)
                  && LocalIds(RemoteVap(r, x).value) == LocalIds(FreshVap(a, peer, None)))
  {
    var v := FreshVap(a, peer, Some(ids));
    LookupAppend(a.remoteVaps, v, x);
    if a.switch.Some? {
      LookupAppend(a.remoteVaps, v.(p4Port := Some(a.switch.value.portGen)), x);
    }
  }

  lemma CompleteEntry(a: App, peer: Host, ids: Ids, x: Host)
    ensures var r := CompleteLocalVap(a, peer, ids);
            && RemoteVap(r, x) == RemoteVap(a, x)
            && (x != peer || LocalVap(a, x).None? ==> LocalVap(r, x) == LocalVap(a, x))
            && (x == peer && LocalVap(a, x).Some? ==>
                  && LocalVap(r, x).Some? && LocalVap(r, x).value.remote == Some(ids)
                  && LocalIds(LocalVap(r, x).value) == LocalIds(LocalVap(a, x).value))
  {
    var i := FindVap(a.localVaps, peer);
    if i.Some? {
      var v := a.localVaps[i.value].(remote := Some(ids));
      LookupUpdate(a.localVaps, i.value, v, x);
      if a.switch.Some? {
        LookupUpdate(a.localVaps, i.value, v.(p4Port := Some(a.switch.value.portGen)), x);
      }
    }
  }

  lemma RemoveEntry(a: App, nb: Host, x: Host)
    ensures var r := RemoveVap(a, nb);
            RemoteVap(r, x) == RemoteVap(a, x) && (x != nb ==> LocalVap(r, x) == LocalVap(a, x))
  {
    var i := FindVap(a.localVaps, nb);
    if x != nb && i.Some? {
      LookupRemove(a.localVaps, i.value, x);
    }
  }

  // ---------------------------------------------------------------- the invariant for a pair

  /** Queued notes came over the network. */
  ghost predicate QueueOk(w: World, n: Host)
  {
    n in w.apps ==> forall i | 0 <= i < |w.apps[n].queue| :: w.apps[n].queue[i] in w.net && w.apps[n].queue[i].dst == n
  }

  /** A completion that b sent to a names the ids of b's WTP for a. */
  predicate CompletedOk(w: World, a: Host, b: Host, note: Note)
  {
    note.CreateCompleted? && note.peer == b && note.dst == a ==>
      b in w.apps && RemoteVap(w.apps[b], a).Some? && note.ids == LocalIds(RemoteVap(w.apps[b], a).value)
  }

  /** The remote half of a's VAP is the local half of b's WTP. */
  predicate LocalHalf(w: World, a: Host, b: Host)
  {
    a in w.apps && LocalVap(w.apps[a], b).Some? && LocalVap(w.apps[a], b).value.remote.Some? ==>
      && b in w.apps && RemoteVap(w.apps[b], a).Some?
      && LocalVap(w.apps[a], b).value.remote.value == LocalIds(RemoteVap(w.apps[b], a).value)
  }

  ghost predicate HalfInv(w: World, a: Host, b: Host)
  {
    && Ok(w) && LocalHalf(w, a, b)
    && (forall n :: QueueOk(w, n))
    && (forall note {:trigger CompletedOk(w, a, b, note)} | note in w.net :: CompletedOk(w, a, b, note))
  }

  /** A request that a sent to b names the ids of a's VAP for b. */
  predicate RequestOk(w: World, a: Host, b: Host, note: Note)
  {
    note.CreateRequest? && note.peer == a && note.dst == b ==>
      a in w.apps && LocalVap(w.apps[a], b).Some? && note.ids == LocalIds(LocalVap(w.apps[a], b).value)
  }

  /** The remote half of b's WTP is the local half of a's VAP. */
  predicate RemoteHalf(w: World, a: Host, b: Host)
  {
    b in w.apps && RemoteVap(w.apps[b], a).Some? ==>
      && a in w.apps && LocalVap(w.apps[a], b).Some?
      && RemoteVap(w.apps[b], a).value.remote == Some(LocalIds(LocalVap(w.apps[a], b).value))
  }

  ghost predicate FullInv(w: World, a: Host, b: Host)
  {
    && RemoteHalf(w, a, b)
    && (forall note {:trigger RequestOk(w, a, b, note)} | note in w.net :: RequestOk(w, a, b, note))
  }

  // ---------------------------------------------------------------- steps

  /** a keeps the local half of its VAP for b; b keeps its WTP for a. */
  predicate LocalKept(p: App, q: App, x: Host)
  {
    LocalVap(p, x).Some? ==> LocalVap(q, x).Some? && LocalIds(LocalVap(q, x).value) == LocalIds(LocalVap(p, x).value)
  }

  predicate RemoteKept(p: App, q: App, x: Host)
  {
    RemoteVap(p, x).Some? ==> RemoteVap(q, x) == RemoteVap(p, x)
  }

  lemma HalfKept(w: World, w': World, a: Host, b: Host, r: Outcome)
    requires a != b && HalfInv(w, a, b) && Ok(w') && r.app.hostname in w.apps && w' == Put(w, r)
    requires RemoteKept(w.apps[r.app.hostname], r.app, a)
    requires LocalHalf(w', a, b) && QueueOk(w', r.app.hostname)
    requires r.out.Some? ==> CompletedOk(w', a, b, r.out.value)
    ensures HalfInv(w', a, b)
  {
    forall n ensures QueueOk(w', n) {
      assert QueueOk(w, n);
    }
    forall note | note in w'.net ensures CompletedOk(w', a, b, note) {
      if note in w.net {
        assert CompletedOk(w, a, b, note);
      }
    }
  }

  lemma FullKept(w: World, w': World, a: Host, b: Host, r: Outcome)
    requires a != b && FullInv(w, a, b) && r.app.hostname in w.apps && w' == Put(w, r)
    requires LocalKept(w.apps[r.app.hostname], r.app, b)
    requires RemoteHalf(w', a, b)
    requires r.out.Some? ==> RequestOk(w', a, b, r.out.value)
    ensures FullInv(w', a, b)
  {
    forall note | note in w'.net ensures RequestOk(w', a, b, note) {
      if note in w.net {
        assert RequestOk(w, a, b, note);
      }
    }
  }

  /** Processing a request: b's new WTP for a, if any, leaves what a knows of b untouched. */
  lemma CreateHalf(w: World, a: Host, b: Host, app: App, peer: Host, ids: Ids)
    requires a != b && HalfInv(w, a, b) && app.hostname in w.apps
    requires app == w.apps[app.hostname].(queue := app.queue) && app.boot == Started && AppOk(app)
    requires forall i | 0 <= i < |app.queue| :: app.queue[i] in w.net && app.queue[i].dst == app.hostname
    ensures HalfInv(Put(w, CreateRemoteVap(app, peer, ids)), a, b)
  {
    var r := CreateRemoteVap(app, peer, ids);
    CreateOk(app, peer, ids);
    PutOk(w, r);
    CreateEntry(app, peer, ids, a);
    CreateEntry(app, peer, ids, b);
    HalfKept(w, Put(w, r), a, b, r);
  }

  lemma CompleteHalf(w: World, a: Host, b: Host, app: App, peer: Host, ids: Ids)
    requires a != b && HalfInv(w, a, b) && app.hostname in w.apps
    requires app == w.apps[app.hostname].(queue := app.queue) && app.boot == Started && AppOk(app)
    requires forall i | 0 <= i < |app.queue| :: app.queue[i] in w.net && app.queue[i].dst == app.hostname
    requires CompletedOk(w, a, b, CreateCompleted(peer, app.hostname, ids))
    ensures HalfInv(Put(w, Outcome(CompleteLocalVap(app, peer, ids), None)), a, b)
  {
    var r := Outcome(CompleteLocalVap(app, peer, ids), None);
    CompleteOk(app, peer, ids);
    PutOk(w, r);
    CompleteEntry(app, peer, ids, a);
    CompleteEntry(app, peer, ids, b);
    HalfKept(w, Put(w, r), a, b, r);
  }

  /** Processing a note that is on the network and addressed to the node. */
  lemma ProcessHalf(w: World, a: Host, b: Host, app: App, note: Note)
    requires a != b && HalfInv(w, a, b) && app.hostname in w.apps && note in w.net && note.dst == app.hostname
    requires app == w.apps[app.hostname].(queue := app.queue) && app.boot == Started && AppOk(app)
    requires forall i | 0 <= i < |app.queue| :: app.queue[i] in w.net && app.queue[i].dst == app.hostname
    ensures HalfInv(Put(w, ProcessMsg(app, note)), a, b)
  {
    assert CompletedOk(w, a, b, note);
    match note {
      case CreateRequest(peer, _, ids) => CreateHalf(w, a, b, app, peer, ids);
      case CreateCompleted(peer, _, ids) => CompleteHalf(w, a, b, app, peer, ids);
      case Announcement(_, _) =>
        PutOk(w, Outcome(app, None));
        HalfKept(w, Put(w, Outcome(app, None)), a, b, Outcome(app, None));
    }
  }

  lemma CreateFull(w: World, a: Host, b: Host, app: App, peer: Host, ids: Ids)
    requires a != b && FullInv(w, a, b) && app.hostname in w.apps
    requires app == w.apps[app.hostname].(queue := app.queue)
    requires RequestOk(w, a, b, CreateRequest(peer, app.hostname, ids))
    ensures FullInv(Put(w, CreateRemoteVap(app, peer, ids)), a, b)
  {
    var r := CreateRemoteVap(app, peer, ids);
    CreateEntry(app, peer, ids, a);
    CreateEntry(app, peer, ids, b);
    CreatedMirrors(w, Put(w, r), a, b, peer, ids, r.app);
    FullKept(w, Put(w, r), a, b, r);
  }

  lemma CreatedMirrors(w: World, w': World, a: Host, b: Host, peer: Host, ids: Ids, q: App)
    requires a != b && RemoteHalf(w, a, b) && q.hostname in w.apps && w'.apps == w.apps[q.hostname := q]
    requires RequestOk(w, a, b, CreateRequest(peer, q.hostname, ids))
    requires LocalVap(q, b) == LocalVap(w.apps[q.hostname], b)
    requires peer != a || RemoteVap(w.apps[q.hostname], a).Some? ==> RemoteVap(q, a) == RemoteVap(w.apps[q.hostname], a)
    requires peer == a && RemoteVap(w.apps[q.hostname], a).None? ==>
               RemoteVap(q, a).Some? && RemoteVap(q, a).value.remote == Some(ids)
    ensures RemoteHalf(w', a, b)
  {
  }

  lemma CompleteFull(w: World, a: Host, b: Host, app: App, peer: Host, ids: Ids)
    requires a != b && FullInv(w, a, b) && app.hostname in w.apps
    requires app == w.apps[app.hostname].(queue := app.queue)
    ensures FullInv(Put(w, Outcome(CompleteLocalVap(app, peer, ids), None)), a, b)
  {
    var r := Outcome(CompleteLocalVap(app, peer, ids), None);
    CompleteEntry(app, peer, ids, a);
    CompleteEntry(app, peer, ids, b);
    KeptMirrors(w, Put(w, r), a, b, r.app);
    FullKept(w, Put(w, r), a, b, r);
  }

  lemma KeptMirrors(w: World, w': World, a: Host, b: Host, q: App)
    requires a != b && RemoteHalf(w, a, b) && q.hostname in w.apps && w'.apps == w.apps[q.hostname := q]
    requires RemoteVap(q, a) == RemoteVap(w.apps[q.hostname], a) && LocalKept(w.apps[q.hostname], q, b)
    ensures RemoteHalf(w', a, b)
  {
  }

  lemma ProcessFull(w: World, a: Host, b: Host, app: App, note: Note)
    requires a != b && FullInv(w, a, b) && app.hostname in w.apps && note in w.net && note.dst == app.hostname
    requires app == w.apps[app.hostname].(queue := app.queue)
    ensures FullInv(Put(w, ProcessMsg(app, note)), a, b)
  {
    assert RequestOk(w, a, b, note);
    match note {
      case CreateRequest(peer, _, ids) => CreateFull(w, a, b, app, peer, ids);
      case CreateCompleted(peer, _, ids) => CompleteFull(w, a, b, app, peer, ids);
      case Announcement(_, _) => FullKept(w, Put(w, Outcome(app, None)), a, b, Outcome(app, None));
    }
  }

  lemma LinkHalf(w: World, a: Host, b: Host, act: Action)
    requires a != b && HalfInv(w, a, b) && Enabled(w, act) && (act.NewLink? || act.LinkFailure?)
    ensures HalfInv(Step(w, act), a, b)
  {
    assert OkAt(w, act.n) && QueueOk(w, act.n);
    StepOk(w, act);
    var app := w.apps[act.n];
    if act.NewLink? {
      InitializeEntry(app, act.nb, a);
      InitializeEntry(app, act.nb, b);
      HalfKept(w, Step(w, act), a, b, InitializeLocalVap(app, act.nb));
    } else {
      RemoveEntry(app, act.nb, a);
      RemoveEntry(app, act.nb, b);
      RemovedIsGone(app, act.nb);
      HalfKept(w, Step(w, act), a, b, Outcome(RemoveVap(app, act.nb), None));
    }
  }

  /** With one entry per neighbour, removing it leaves none. */
  lemma RemovedIsGone(a: App, nb: Host)
    requires VapsOk(a)
    ensures LocalVap(RemoveVap(a, nb), nb).None?
  {
  }

  lemma LinkFull(w: World, a: Host, b: Host, act: Action)
    requires a != b && Ok(w) && FullInv(w, a, b) && Enabled(w, act)
    requires act.NewLink? || (act.LinkFailure? && !(act.n == a && act.nb == b))
    ensures FullInv(Step(w, act), a, b)
  {
    assert OkAt(w, act.n);
    var app := w.apps[act.n];
    if act.NewLink? {
      var r := InitializeLocalVap(app, act.nb);
      InitializeEntry(app, act.nb, a);
      InitializeEntry(app, act.nb, b);
      KeptMirrors(w, Put(w, r), a, b, r.app);
      FullKept(w, Put(w, r), a, b, r);
    } else {
      var r := Outcome(RemoveVap(app, act.nb), None);
      RemoveEntry(app, act.nb, a);
      RemoveEntry(app, act.nb, b);
      if act.n == a {
        KeptMirrors(w, Put(w, r), a, b, r.app);
        FullKept(w, Put(w, r), a, b, r);
      } else {
        OtherFull(w, Put(w, r), a, b, r.app);
      }
    }
  }

  lemma OtherFull(w: World, w': World, a: Host, b: Host, q: App)
    requires FullInv(w, a, b) && q.hostname in w.apps && q.hostname != a && w' == Put(w, Outcome(q, None))
    requires RemoteVap(q, a) == RemoteVap(w.apps[q.hostname], a)
    ensures FullInv(w', a, b)
  {
    forall note | note in w'.net ensures RequestOk(w', a, b, note) {
      assert RequestOk(w, a, b, note);
    }
  }

  /** A step that leaves both lists of entries alone: start-up steps and queueing. */
  lemma QuietStep(w: World, a: Host, b: Host, q: App)
    requires a != b && HalfInv(w, a, b) && q.hostname in w.apps && AppOk(q)
    requires q.localVaps == w.apps[q.hostname].localVaps && q.remoteVaps == w.apps[q.hostname].remoteVaps
    requires forall i | 0 <= i < |q.queue| :: q.queue[i] in w.net && q.queue[i].dst == q.hostname
    ensures HalfInv(Put(w, Outcome(q, None)), a, b)
    ensures FullInv(w, a, b) ==> FullInv(Put(w, Outcome(q, None)), a, b)
  {
    var r := Outcome(q, None);
    PutOk(w, r);
    HalfKept(w, Put(w, r), a, b, r);
    if FullInv(w, a, b) {
      FullKept(w, Put(w, r), a, b, r);
    }
  }

  lemma DeliverStep(w: World, a: Host, b: Host, n: Host, note: Note)
    requires a != b && HalfInv(w, a, b) && n in w.apps && note in w.net && note.dst == n
    ensures HalfInv(Put(w, RxCb(w.apps[n], note)), a, b)
    ensures FullInv(w, a, b) ==> FullInv(Put(w, RxCb(w.apps[n], note)), a, b)
  {
    assert OkAt(w, n) && QueueOk(w, n);
    var app := w.apps[n];
    if app.boot != Started {
      QuietStep(w, a, b, app.(queue := app.queue + [note]));
    } else {
      ProcessHalf(w, a, b, app, note);
      if FullInv(w, a, b) {
        ProcessFull(w, a, b, app, note);
      }
    }
  }

  lemma AdvanceStep(w: World, a: Host, b: Host, n: Host)
    requires a != b && HalfInv(w, a, b) && n in w.apps
    ensures HalfInv(Put(w, RunStep(w.apps[n])), a, b)
    ensures FullInv(w, a, b) ==> FullInv(Put(w, RunStep(w.apps[n])), a, b)
  {
    assert OkAt(w, n) && QueueOk(w, n);
    var app := w.apps[n];
    if app.boot == Started && app.queue != [] {
      var rest := app.(queue := app.queue[1..]);
      assert app.queue[0] in w.net;
      ProcessHalf(w, a, b, rest, app.queue[0]);
      if FullInv(w, a, b) {
        ProcessFull(w, a, b, rest, app.queue[0]);
      }
    } else {
      RunStepOk(app);
      QuietStep(w, a, b, RunStep(app).app);
    }
  }

  lemma AnnounceStep(w: World, a: Host, b: Host, n: Host, nb: Host)
    requires HalfInv(w, a, b)
    ensures HalfInv(w.(net := w.net + {Announcement(n, nb)}), a, b)
    ensures FullInv(w, a, b) ==> FullInv(w.(net := w.net + {Announcement(n, nb)}), a, b)
  {
    var w' := w.(net := w.net + {Announcement(n, nb)});
    forall h ensures OkAt(w', h) && QueueOk(w', h) {
      assert OkAt(w, h) && QueueOk(w, h);
    }
    forall note | note in w'.net ensures CompletedOk(w', a, b, note) {
      if note in w.net {
        assert CompletedOk(w, a, b, note);
      }
    }
    if FullInv(w, a, b) {
      forall note | note in w'.net ensures RequestOk(w', a, b, note) {
        if note in w.net {
          assert RequestOk(w, a, b, note);
        }
      }
    }
  }

  lemma StepHandshake(w: World, a: Host, b: Host, act: Action)
    requires a != b && HalfInv(w, a, b)
    ensures HalfInv(Step(w, act), a, b)
    ensures FullInv(w, a, b) && act != LinkFailure(a, b) ==> FullInv(Step(w, act), a, b)
  {
    if Enabled(w, act) {
      match act {
        case NewLink(_, _) =>
          LinkHalf(w, a, b, act);
          if FullInv(w, a, b) {
            LinkFull(w, a, b, act);
          }
        case LinkFailure(_, _) =>
          LinkHalf(w, a, b, act);
          if FullInv(w, a, b) && act != LinkFailure(a, b) {
            LinkFull(w, a, b, act);
          }
        case Deliver(n, note) => DeliverStep(w, a, b, n, note);
        case Advance(n) => AdvanceStep(w, a, b, n);
        case Announce(n, nb) => AnnounceStep(w, a, b, n, nb);
      }
    }
  }

  lemma {:induction false} RunHandshake(hosts: set<Host>, run: seq<Action>, a: Host, b: Host)
    requires a != b
    ensures HalfInv(Run(Start(hosts), run), a, b)
    ensures LinkFailure(a, b) !in run ==> FullInv(Run(Start(hosts), run), a, b)
  {
    if run == [] {
      RunOk(hosts, []);
    } else {
      var k := |run| - 1;
      RunHandshake(hosts, run[..k], a, b);
      StepHandshake(Run(Start(hosts), run[..k]), a, b, run[k]);
    }
  }

  // ---------------------------------------------------------------- theorems

  /** b's WTP for a was created for the VAP that a now has for b. */
  predicate Mirrored(w: World, a: Host, b: Host)
  {
    && a in w.apps && b in w.apps && LocalVap(w.apps[a], b).Some? && RemoteVap(w.apps[b], a).Some?
    && RemoteVap(w.apps[b], a).value.remote == Some(LocalIds(LocalVap(w.apps[a], b).value))
  }

  predicate CompletedAt(w: World, a: Host, b: Host)
  {
    a in w.apps && LocalVap(w.apps[a], b).Some? && LocalVap(w.apps[a], b).value.remote.Some?
  }

  /** In every run, what a completed VAP at a knows of the far end is what b's WTP for a really uses. */
  lemma CompletedVapKnowsPeer(hosts: set<Host>, run: seq<Action>, a: Host, b: Host)
    requires a != b
    ensures var w := Run(Start(hosts), run);
            CompletedAt(w, a, b) ==>
              && b in w.apps && RemoteVap(w.apps[b], a).Some?
              && LocalVap(w.apps[a], b).value.remote == Some(LocalIds(RemoteVap(w.apps[b], a).value))
  {
    RunHandshake(hosts, run, a, b);
  }

  /** In every run without a link failure at a for b, both ends of a completed VAP mirror each other. */
  lemma VapMirror(hosts: set<Host>, run: seq<Action>, a: Host, b: Host)
    requires a != b && LinkFailure(a, b) !in run
    ensures var w := Run(Start(hosts), run);
            CompletedAt(w, a, b) ==>
              && Mirrored(w, a, b)
              && LocalVap(w.apps[a], b).value.remote == Some(LocalIds(RemoteVap(w.apps[b], a).value))
  {
    RunHandshake(hosts, run, a, b);
  }

  // ---------------------------------------------------------------- after a link failure

  /** How one application may change with respect to host x. */
  predicate Evolves(p: App, q: App, x: Host)
  {
    && RemoteKept(p, q, x) && p.tunnelGen <= q.tunnelGen
    && (LocalVap(q, x).Some? ==>
          || (LocalVap(p, x).Some? && LocalIds(LocalVap(q, x).value) == LocalIds(LocalVap(p, x).value))
          || LocalVap(q, x).value.localTunnel >= p.tunnelGen)
  }

  lemma ProcessEvolves(p: App, note: Note, x: Host)
    ensures Evolves(p, ProcessMsg(p, note).app, x) && LocalKept(p, ProcessMsg(p, note).app, x)
  {
    match note {
      case CreateRequest(peer, _, ids) => CreateEntry(p, peer, ids, x);
      case CreateCompleted(peer, _, ids) => CompleteEntry(p, peer, ids, x);
      case Announcement(_, _) =>
    }
  }

  lemma RunStepEvolves(p: App, x: Host)
    ensures Evolves(p, RunStep(p).app, x) && LocalKept(p, RunStep(p).app, x)
  {
    if p.boot == Started && p.queue != [] {
      ProcessEvolves(p.(queue := p.queue[1..]), p.queue[0], x);
    }
  }

  lemma RxEvolves(p: App, note: Note, x: Host)
    ensures Evolves(p, RxCb(p, note).app, x) && LocalKept(p, RxCb(p, note).app, x)
  {
    ProcessEvolves(p, note, x);
  }

  lemma LinkEvolves(p: App, nb: Host, x: Host)
    requires VapsOk(p)
    ensures Evolves(p, InitializeLocalVap(p, nb).app, x) && LocalKept(p, InitializeLocalVap(p, nb).app, x)
    ensures Evolves(p, RemoveVap(p, nb), x)
    ensures if nb == x then LocalVap(RemoveVap(p, nb), x).None? else LocalKept(p, RemoveVap(p, nb), x)
  {
    InitializeEntry(p, nb, x);
    RemoveEntry(p, nb, x);
    RemovedIsGone(p, nb);
  }

  /** The application that a step changes, if any. */
  function StepApp(p: App, act: Action): (q: App)
  {
    match act
    case NewLink(_, nb) => InitializeLocalVap(p, nb).app
    case LinkFailure(_, nb) => RemoveVap(p, nb)
    case Deliver(_, note) => RxCb(p, note).app
    case Advance(_) => RunStep(p).app
    case Announce(_, _) => p
  }

  lemma StepAt(w: World, act: Action, n: Host)
    requires Ok(w) && n in w.apps
    ensures n in Step(w, act).apps
    ensures Step(w, act).apps[n] == if Enabled(w, act) && act.n == n then StepApp(w.apps[n], act) else w.apps[n]
  {
    if Enabled(w, act) {
      assert OkAt(w, act.n);
    }
  }

  lemma StepEvolves(w: World, act: Action, n: Host, x: Host)
    requires Ok(w) && n in w.apps
    ensures n in Step(w, act).apps && Evolves(w.apps[n], Step(w, act).apps[n], x)
    ensures act != LinkFailure(n, x) ==> LocalKept(w.apps[n], Step(w, act).apps[n], x)
    ensures act == LinkFailure(n, x) ==> LocalVap(Step(w, act).apps[n], x).None?
  {
    StepAt(w, act, n);
    assert OkAt(w, n);
    var app := w.apps[n];
    match act {
      case NewLink(_, nb) => LinkEvolves(app, nb, x);
      case LinkFailure(_, nb) => LinkEvolves(app, nb, x);
      case Deliver(_, note) => RxEvolves(app, note, x);
      case Advance(_) => RunStepEvolves(app, x);
      case Announce(_, _) =>
    }
  }

  /** b's WTP for a belongs to a VAP that a no longer has and whose tunnel id a will not use again. */
  predicate Stale(w: World, a: Host, b: Host)
  {
    && a in w.apps && b in w.apps
    && RemoteVap(w.apps[b], a).Some? && RemoteVap(w.apps[b], a).value.remote.Some?
    && var t := RemoteVap(w.apps[b], a).value.remote.value.tunnel;
    && t < w.apps[a].tunnelGen
    && (LocalVap(w.apps[a], b).Some? ==> t < LocalVap(w.apps[a], b).value.localTunnel)
  }

  lemma StaleStep(w: World, a: Host, b: Host, act: Action)
    requires Ok(w) && Stale(w, a, b)
    ensures Stale(Step(w, act), a, b)
  {
    StepEvolves(w, act, a, b);
    StepEvolves(w, act, b, a);
  }

  lemma MirrorStep(w: World, a: Host, b: Host, act: Action)
    requires Ok(w) && Mirrored(w, a, b)
    ensures if act == LinkFailure(a, b) then Stale(Step(w, act), a, b) else Mirrored(Step(w, act), a, b)
  {
    assert OkAt(w, a);
    StepEvolves(w, act, a, b);
    StepEvolves(w, act, b, a);
  }

  lemma {:induction false} RunMirror(w: World, a: Host, b: Host, run: seq<Action>)
    requires Ok(w) && Mirrored(w, a, b)
    ensures Ok(Run(w, run))
    ensures if LinkFailure(a, b) in run then Stale(Run(w, run), a, b) else Mirrored(Run(w, run), a, b)
  {
    if run != [] {
      var k := |run| - 1;
      RunMirror(w, a, b, run[..k]);
      assert run == run[..k] + [run[k]];
      var v := Run(w, run[..k]);
      StepOk(v, run[k]);
      if LinkFailure(a, b) in run[..k] {
        StaleStep(v, a, b, run[k]);
      } else {
        MirrorStep(v, a, b, run[k]);
      }
    }
  }

  /**
    Once b has its WTP for a's VAP, the two mirror each other after a continuation of the run if and only if
    a saw no link failure for b in it: the WTP is never replaced and a never gets its old ids back.
   */
  lemma MirrorsUntilLinkFailure(hosts: set<Host>, before: seq<Action>, after: seq<Action>, a: Host, b: Host)
    requires Mirrored(Run(Start(hosts), before), a, b)
    ensures Mirrored(Run(Run(Start(hosts), before), after), a, b) <==> LinkFailure(a, b) !in after
  {
    RunOk(hosts, before);
    RunMirror(Run(Start(hosts), before), a, b, after);
  }

  lemma ThreeSteps(w: World, x: Action, y: Action, z: Action)
    ensures Run(w, [x, y, z]) == Step(Step(Step(w, x), y), z)
  {
    assert [x, y, z][..2] == [x, y] && [x, y][..1] == [x] && [x][..0] == [];
    assert Run(w, [x]) == Step(w, x);
  }

  lemma NewVapCompleted(w: World, a: Host, b: Host, note: Note)
    requires Ok(w) && a in w.apps && w.apps[a].boot == Started && LocalVap(w.apps[a], b).None?
    requires note in w.net && note.CreateCompleted? && note.peer == b && note.dst == a
    ensures CompletedAt(Step(Step(w, NewLink(a, b)), Deliver(a, note)), a, b)
  {
    assert OkAt(w, a);
    InitializeEntry(w.apps[a], b, b);
    CompleteEntry(InitializeLocalVap(w.apps[a], b).app, b, note.ids, b);
  }

  /**
    After a link failure and a new link, the completion that b sent for the first VAP completes the second
    one, although b's WTP still points at the first.
   */
  lemma OldCompletionIsAccepted(w: World, a: Host, b: Host, note: Note)
    requires a != b && HalfInv(w, a, b) && Mirrored(w, a, b) && w.apps[a].boot == Started
    requires note in w.net && note.CreateCompleted? && note.peer == b && note.dst == a
    ensures var w' := Run(w, [LinkFailure(a, b), NewLink(a, b), Deliver(a, note)]);
            CompletedAt(w', a, b) && !Mirrored(w', a, b)
  {
    var acts := [LinkFailure(a, b), NewLink(a, b), Deliver(a, note)];
    ThreeSteps(w, acts[0], acts[1], acts[2]);
    RunMirror(w, a, b, acts);
    StepOk(w, acts[0]);
    assert OkAt(w, a);
    StepEvolves(w, acts[0], a, b);
    NewVapCompleted(Step(w, acts[0]), a, b, note);
  }
}
