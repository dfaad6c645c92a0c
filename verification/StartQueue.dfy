/**
  The queue in front of the application: what comes before the start is processed after it, first in, first out.
 */
module StartQueue {
  import opened Agent
  import opened Cran
  import opened CranNetwork

  /** The application and all it has sent. */
  datatype Traffic = Traffic(app: App, sent: seq<Note>)

  function Sent(r: Outcome): (s: seq<Note>)
  {
    if r.out.Some? then [r.out.value] else []
  }

  /** The notes processed one after the other, the first one first. */
  function ProcessAll(t: Traffic, notes: seq<Note>): (r: Traffic)
    decreases |notes|
  {
    if notes == [] then t
    else
      var o := ProcessMsg(t.app, notes[0]);
      ProcessAll(Traffic(o.app, t.sent + Sent(o)), notes[1..])
  }

  /** The notes received one after the other. */
  function ReceiveAll(t: Traffic, notes: seq<Note>): (r: Traffic)
    decreases |notes|
  {
    if notes == [] then t
    else
      var o := RxCb(t.app, notes[0]);
      ReceiveAll(Traffic(o.app, t.sent + Sent(o)), notes[1..])
  }

  /** k steps of the run thread. */
  function Steps(t: Traffic, k: nat): (r: Traffic)
    decreases k
  {
    if k == 0 then t
    else
      var o := RunStep(t.app);
      Steps(Traffic(o.app, t.sent + Sent(o)), k - 1)
  }

  lemma {:induction false} StepsAdd(t: Traffic, j: nat, k: nat)
    ensures Steps(t, j + k) == Steps(Steps(t, j), k)
    decreases j
  {
    if j > 0 {
      var o := RunStep(t.app);
      StepsAdd(Traffic(o.app, t.sent + Sent(o)), j - 1, k);
    }
  }

  /** Before the start, the queue has what came, in order, and nothing is sent. */
  lemma {:induction false} WaitingInOrder(t: Traffic, notes: seq<Note>)
    requires t.app.boot != Started
    ensures ReceiveAll(t, notes) == Traffic(t.app.(queue := t.app.queue + notes), t.sent)
    decreases |notes|
  {
    if notes == [] {
      assert t.app.queue + notes == t.app.queue;
    } else {
      var b := t.app.(queue := t.app.queue + [notes[0]]);
      assert t.sent + [] == t.sent;
      assert (t.app.queue + [notes[0]]) + notes[1..] == t.app.queue + notes;
      WaitingInOrder(Traffic(b, t.sent), notes[1..]);
    }
  }

  /** Processing does not look at the queue. */
  lemma ProcessIgnoresQueue(a: App, q: seq<Note>, note: Note)
    ensures ProcessMsg(a.(queue := q), note) == Outcome(ProcessMsg(a, note).app.(queue := q), ProcessMsg(a, note).out)
    ensures ProcessMsg(a, note).app.queue == a.queue && ProcessMsg(a, note).app.boot == a.boot
  {
  }

  /** As many steps as there are notes in the queue process them, first in, first out, and leave it empty. */
  lemma {:induction false} QueueInOrder(t: Traffic)
    requires t.app.boot == Started
    ensures Steps(t, |t.app.queue|) == ProcessAll(Traffic(t.app.(queue := []), t.sent), t.app.queue)
    ensures Steps(t, |t.app.queue|).app.queue == [] && Steps(t, |t.app.queue|).app.boot == Started
    decreases |t.app.queue|
  {
    var q := t.app.queue;
    if q == [] {
      assert t.app.(queue := []) == t.app;
    } else {
      var o := ProcessMsg(t.app.(queue := q[1..]), q[0]);
      ProcessIgnoresQueue(t.app, q[1..], q[0]);
      ProcessIgnoresQueue(t.app, [], q[0]);
      QueueInOrder(Traffic(o.app, t.sent + Sent(o)));
      assert o.app.(queue := []) == ProcessMsg(t.app.(queue := []), q[0]).app;
    }
  }

  /** The switch after the start: hwsim0 and inject0, and no wire. */
  function BaseSwitch(): (sw: Switch)
  {
    Switch(2, [(Hwsim0, 0), (Inject0, 1)], [])
  }

  /** The four steps of the start leave all but the switch as it was and send nothing. */
  lemma FourSteps(t: Traffic)
    requires t.app.boot == Idle
    ensures Steps(t, 4) == Traffic(t.app.(boot := Started, switch := Some(BaseSwitch())), t.sent)
  {
    var a0 := t.app;
    var a1 := a0.(switch := Some(Switch(0, [], [])), boot := SwitchUp);
    var a2 := a0.(switch := Some(Switch(1, [(Hwsim0, 0)], [])), boot := HomeUp);
    var a3 := a0.(switch := Some(BaseSwitch()), boot := MonitorUp);
    assert [] + [(Hwsim0, 0)] == [(Hwsim0, 0)] && [(Hwsim0, 0)] + [(Inject0, 1)] == [(Hwsim0, 0), (Inject0, 1)];
    BootOnce(a0, t.sent, a1, 3);
    BootOnce(a1, t.sent, a2, 2);
    BootOnce(a2, t.sent, a3, 1);
    BootOnce(a3, t.sent, a0.(boot := Started, switch := Some(BaseSwitch())), 0);
  }

  lemma BootOnce(a: App, sent: seq<Note>, b: App, k: nat)
    requires RunStep(a) == Outcome(b, None)
    ensures Steps(Traffic(a, sent), k + 1) == Steps(Traffic(b, sent), k)
  {
    assert sent + [] == sent;
  }

  /**
    A node that receives notes before its start, then starts, and then takes as many steps as there were notes, is
    where it would be if it had started first and received the same notes in the same order afterwards, and has
    sent the same.
   */
  lemma QueueKeepsOrder(hostname: Host, notes: seq<Note>)
    ensures Steps(ReceiveAll(Traffic(NewApp(hostname), []), notes), 4 + |notes|)
         == ReceiveAll(Steps(Traffic(NewApp(hostname), []), 4), notes)
  {
    var t := Traffic(NewApp(hostname), []);
    WaitingInOrder(t, notes);
    var w := ReceiveAll(t, notes);
    assert [] + notes == notes;
    FourSteps(w);
    FourSteps(t);
    StepsAdd(w, 4, |notes|);
    QueueInOrder(Steps(w, 4));
    assert Steps(w, 4).app.(queue := []) == Steps(t, 4).app;
    ReceivesAtOnce(Steps(t, 4), notes);
  }

  /** After the start, receiving is processing. */
  lemma {:induction false} ReceivesAtOnce(t: Traffic, notes: seq<Note>)
    requires t.app.boot == Started
    ensures ReceiveAll(t, notes) == ProcessAll(t, notes)
    decreases |notes|
  {
    if notes != [] {
      var o := ProcessMsg(t.app, notes[0]);
      ProcessIgnoresQueue(t.app, [], notes[0]);
      ReceivesAtOnce(Traffic(o.app, t.sent + Sent(o)), notes[1..]);
    }
  }
}
