/**
  How the ids of VAPs and WTPs are numbered: one number per entry, from 0 on, from which the tunnel id, the session
  id and the UDP port follow.
 */
module IdNumbers {
  import opened Agent
  import opened Cran
  import opened CranNetwork

  predicate Numbered(v: Vap)
  {
    v.localTunnel == 1000 + v.vapId && v.localSession == 1000 + v.vapId && v.sport == 5001 + v.vapId
  }

  ghost predicate AllNumbered(a: App)
  {
    && a.tunnelGen == 1000 + a.vapGen && a.sessionGen == 1000 + a.vapGen && a.portGen == 5001 + a.vapGen
    && (forall i | 0 <= i < |a.localVaps| :: Numbered(a.localVaps[i]))
    && (forall i | 0 <= i < |a.remoteVaps| :: Numbered(a.remoteVaps[i]))
  }

  /** The numbers given out so far, less the entries that exist: the entries that were removed. */
  function Gone(a: App): (k: int)
  {
    a.vapGen - |a.localVaps| - |a.remoteVaps|
  }

  lemma ProcessNumbers(a: App, note: Note)
    requires AllNumbered(a)
    ensures AllNumbered(ProcessMsg(a, note).app) && Gone(ProcessMsg(a, note).app) == Gone(a)
  {
  }

  lemma RunStepNumbers(a: App)
    requires AllNumbered(a)
    ensures AllNumbered(RunStep(a).app) && Gone(RunStep(a).app) == Gone(a)
  {
    if a.boot == Started && a.queue != [] {
      ProcessNumbers(a.(queue := a.queue[1..]), a.queue[0]);
    }
  }

  lemma RxNumbers(a: App, note: Note)
    requires AllNumbered(a)
    ensures AllNumbered(RxCb(a, note).app) && Gone(RxCb(a, note).app) == Gone(a)
  {
    ProcessNumbers(a, note);
  }

  lemma LinkNumbers(a: App, nb: Host)
    requires AllNumbered(a)
    ensures AllNumbered(InitializeLocalVap(a, nb).app) && Gone(InitializeLocalVap(a, nb).app) == Gone(a)
    ensures AllNumbered(RemoveVap(a, nb))
    ensures Gone(RemoveVap(a, nb)) == Gone(a) + (if FindVap(a.localVaps, nb).Some? then 1 else 0)
  {
  }

  /** The VAPs that link failures at h removed in the run. */
  function Removals(w: World, run: seq<Action>, h: Host): (k: nat)
  {
    if run == [] then 0
    else
      var init, a := run[..|run| - 1], run[|run| - 1];
      var v := Run(w, init);
      Removals(w, init, h)
      + (if a.LinkFailure? && a.n == h && h in v.apps && FindVap(v.apps[h].localVaps, a.nb).Some? then 1 else 0)
  }

  ghost predicate NumberedAt(w: World, h: Host, removals: int)
  {
    h in w.apps ==> w.apps[h].hostname == h && AllNumbered(w.apps[h]) && Gone(w.apps[h]) == removals
  }

  lemma StepNumbers(w: World, act: Action, h: Host, removals: int)
    requires Ok(w) && NumberedAt(w, h, removals)
    ensures NumberedAt(Step(w, act), h,
                       removals + (if act.LinkFailure? && act.n == h && h in w.apps
                                      && FindVap(w.apps[h].localVaps, act.nb).Some? then 1 else 0))
  {
    if Enabled(w, act) {
      assert OkAt(w, act.n);
      StepOk(w, act);
      if act.n == h {
        match act {
          case NewLink(_, nb) => LinkNumbers(w.apps[h], nb);
          case LinkFailure(_, nb) => LinkNumbers(w.apps[h], nb);
          case Deliver(_, note) =>
            RxNumbers(w.apps[h], note);
            DeliverOk(w.apps[h], note);
          case Advance(_) =>
            RunStepNumbers(w.apps[h]);
            RunStepOk(w.apps[h]);
          case Announce(_, _) =>
        }
      }
    }
  }

  /**
    In every run, for every node: number k stands for the tunnel and session ids 1000 + k and the UDP port 5001 + k,
    and the numbers given out are those of the entries there are and of the VAPs that link failures removed.
   */
  lemma {:induction false} NumbersFollow(hosts: set<Host>, run: seq<Action>, h: Host)
    requires h in hosts
    ensures var w := Run(Start(hosts), run);
            && h in w.apps && AllNumbered(w.apps[h])
            && w.apps[h].vapGen == |w.apps[h].localVaps| + |w.apps[h].remoteVaps| + Removals(Start(hosts), run, h)
  {
    RunOk(hosts, run);
    if run != [] {
      var init := run[..|run| - 1];
      NumbersFollow(hosts, init, h);
      RunOk(hosts, init);
      assert OkAt(Run(Start(hosts), init), h);
      StepNumbers(Run(Start(hosts), init), run[|run| - 1], h, Removals(Start(hosts), init, h));
    }
  }
}
