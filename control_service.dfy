/**
 * `control_service` (thingy-control/src/main.rs, lines 112-129): every cycle
 * classifies a fresh reading, notifies what changed since the previous cycle
 * and keeps the new snapshot as the previous one, starting from the default.
 *
 * The firmware loops forever on a 100 ms timer; the model runs the loop over a
 * finite sequence of readings, standing for the IMU samples and button levels
 * of as many cycles as have elapsed.
 */
module ControlService {
  import opened ControlState
  import opened Classifier
  import opened Notify

  /** The snapshot the classifier makes of each reading. */
  function Snapshots(readings: seq<Reading>): (cs: seq<Control>)
    ensures |cs| == |readings|
    ensures forall i :: 0 <= i < |readings| ==> cs[i] == Classify(readings[i])
  {
    seq(|readings|, i requires 0 <= i < |readings| => Classify(readings[i]))
  }

  /** The last snapshot of `cs`, or `start` before any cycle. */
  function LastOr(start: Control, cs: seq<Control>): Control
  {
    if cs == [] then start else cs[|cs| - 1]
  }

  /** Everything sent over the cycles `cs`, when the loop starts with `start` as its previous snapshot. */
  function Emitted(start: Control, cs: seq<Control>): seq<Event>
    decreases |cs|
  {
    if cs == [] then []
    else Emitted(start, cs[..|cs| - 1]) + Diff(LastOr(start, cs[..|cs| - 1]), cs[|cs| - 1])
  }

  /** One more cycle adds the edges between the last snapshot and the new one. */
  lemma NextCycle(readings: seq<Reading>, i: nat)
    requires i < |readings|
    ensures LastOr(DefaultControl(), Snapshots(readings[..i + 1])) == Classify(readings[i])
    ensures Emitted(DefaultControl(), Snapshots(readings[..i + 1]))
         == Emitted(DefaultControl(), Snapshots(readings[..i]))
            + Diff(LastOr(DefaultControl(), Snapshots(readings[..i])), Classify(readings[i]))
  {
    var cs := Snapshots(readings[..i + 1]);
    assert cs[..i] == Snapshots(readings[..i]);
  }

  /**
   * `control_service` over `readings`: `previous` ends as the last snapshot
   * (the default if there was no cycle), and the sink has been sent exactly the
   * edges between consecutive snapshots, starting from the default. The log
   * keeps its earlier lines and gains one line per notification, named after
   * its field, whatever the outcomes.
   */
  method Run(readings: seq<Reading>, sink: Sink) returns (previous: Control)
    modifies sink
    ensures previous == LastOr(DefaultControl(), Snapshots(readings))
    ensures sink.sent == old(sink.sent) + Emitted(DefaultControl(), Snapshots(readings))
    ensures Logs(sink.log, old(sink.log), Emitted(DefaultControl(), Snapshots(readings)))
    ensures LinesName(sink.log, old(sink.log), Emitted(DefaultControl(), Snapshots(readings)))
  {
    previous := DefaultControl();
    var i := 0;
    while i < |readings|
      invariant 0 <= i <= |readings|
      invariant previous == LastOr(DefaultControl(), Snapshots(readings[..i]))
      invariant sink.sent == old(sink.sent) + Emitted(DefaultControl(), Snapshots(readings[..i]))
      invariant Logs(sink.log, old(sink.log), Emitted(DefaultControl(), Snapshots(readings[..i])))
    {
      var current := Classify(readings[i]);
      ghost var log := sink.log;
      ghost var sofar := Emitted(DefaultControl(), Snapshots(readings[..i]));
      NotifyControl(previous, current, sink);
      NextCycle(readings, i);
      Assoc(old(sink.sent), sofar, Diff(previous, current));
      LogAppend(old(sink.log), log, sink.log, sofar, Diff(previous, current));
      previous := current;
      i := i + 1;
    }
    assert readings[..i] == readings;
    LinesNameEvents(sink.log, old(sink.log), Emitted(DefaultControl(), Snapshots(readings)));
  }

  /**
   * A subscriber that starts from the default and applies every notification
   * in order holds the controller's current snapshot: the edge-triggered
   * stream loses nothing.
   */
  lemma {:induction false} ReplayReconstructs(start: Control, cs: seq<Control>)
    ensures ReceiveAll(start, Emitted(start, cs)) == LastOr(start, cs)
    decreases |cs|
  {
    if cs != [] {
      var init := cs[..|cs| - 1];
      ReplayReconstructs(start, init);
      ReceiveAllConcat(start, Emitted(start, init), Diff(LastOr(start, init), cs[|cs| - 1]));
      ReceiveDiff(LastOr(start, init), cs[|cs| - 1]);
    }
  }

  /** While the snapshot stays what it was, nothing is sent. */
  lemma {:induction false} SteadyIsSilent(start: Control, cs: seq<Control>)
    requires forall i :: 0 <= i < |cs| ==> cs[i] == start
    ensures Emitted(start, cs) == []
    decreases |cs|
  {
    if cs != [] {
      var init := cs[..|cs| - 1];
      SteadyIsSilent(start, init);
      DiffSelfSilent(start);
    }
  }

  /**
   * Over n cycles at most 5n notifications are sent: each cycle sends at most
   * one per field.
   */
  lemma {:induction false} EmittedBound(start: Control, cs: seq<Control>)
    ensures |Emitted(start, cs)| <= 5 * |cs|
    decreases |cs|
  {
    if cs != [] {
      EmittedBound(start, cs[..|cs| - 1]);
      DiffAtMostFive(LastOr(start, cs[..|cs| - 1]), cs[|cs| - 1]);
    }
  }

  /** A snapshot that changes once and then holds sends that one cycle's edges and nothing more. */
  lemma {:induction false} HoldAfterChange(start: Control, cs: seq<Control>)
    requires |cs| >= 1
    requires forall i :: 0 <= i < |cs| ==> cs[i] == cs[0]
    ensures Emitted(start, cs) == Diff(start, cs[0])
    decreases |cs|
  {
    var init := cs[..|cs| - 1];
    if |cs| == 1 {
      assert init == [];
    } else {
      HoldAfterChange(start, init);
      DiffSelfSilent(cs[0]);
    }
  }

  /** Holding one reading steady sends the first cycle's edges and then nothing. */
  lemma {:induction false} SteadyReadingSendsOnce(r: Reading, n: nat)
    requires n >= 1
    ensures Emitted(DefaultControl(), Snapshots(seq(n, _ => r))) == Diff(DefaultControl(), Classify(r))
  {
    HoldAfterChange(DefaultControl(), Snapshots(seq(n, _ => r)));
  }
}
