/**
 * The edge-triggered diff of `notify_control` and the swallowing of notify
 * failures by `unwrap_notify` (thingy-control/src/main.rs, lines 34-39 and
 * 131-182).
 *
 * The GATT server and its connection are an abstract sink that records every
 * notification it is asked to send, and the device log records what
 * `unwrap_notify` reports. Whether a notification is delivered is not up to
 * the firmware; the sink's answer is left unconstrained.
 */
module Notify {
  import opened ControlState

  /** One `*_notify` call: the characteristic and the value sent. */
  datatype Event = Event(field: Field, value: Value)

  /** One line of `unwrap_notify`: "<name> notify success" or "<name> notify error". */
  datatype Status = Status(name: string, success: bool)

  /** The notification for field `f`, if it changed between `prev` and `cur`. */
  function Edge(prev: Control, cur: Control, f: Field): seq<Event>
  {
    if Differs(prev, cur, f) then [Event(f, Encoded(cur, f))] else []
  }

  /** Everything `notify_control(prev, cur)` sends, in the order the code sends it. */
  function Diff(prev: Control, cur: Control): seq<Event>
  {
    Edge(prev, cur, LeftRightField) + Edge(prev, cur, UpDownField) + Edge(prev, cur, ShootField)
      + Edge(prev, cur, JumpField) + Edge(prev, cur, SpinField)
  }

  /** Every event is for a changed field and carries that field's new, encoded value. */
  lemma DiffSound(prev: Control, cur: Control)
    ensures forall i :: 0 <= i < |Diff(prev, cur)| ==>
      Differs(prev, cur, Diff(prev, cur)[i].field) && Diff(prev, cur)[i].value == Encoded(cur, Diff(prev, cur)[i].field)
  {
  }

  /** A field is notified if and only if it changed. */
  lemma {:induction false} DiffComplete(prev: Control, cur: Control, f: Field)
    ensures (exists i :: 0 <= i < |Diff(prev, cur)| && Diff(prev, cur)[i].field == f) <==> Differs(prev, cur, f)
  {
    var d := Diff(prev, cur);
    var pre := Edge(prev, cur, LeftRightField) + Edge(prev, cur, UpDownField) + Edge(prev, cur, ShootField)
      + Edge(prev, cur, JumpField);
    if Differs(prev, cur, f) {
      match f
      case LeftRightField => assert d[0].field == f;
      case UpDownField => assert d[|Edge(prev, cur, LeftRightField)|].field == f;
      case ShootField =>
        assert d[|Edge(prev, cur, LeftRightField) + Edge(prev, cur, UpDownField)|].field == f;
      case JumpField =>
        assert d[|Edge(prev, cur, LeftRightField) + Edge(prev, cur, UpDownField) + Edge(prev, cur, ShootField)|].field == f;
      case SpinField => assert d[|pre|].field == f;
    }
    DiffSound(prev, cur);
  }

  /** Events come strictly in the order left_right, up_down, shoot, jump, spin: at most one per field. */
  lemma DiffOrdered(prev: Control, cur: Control)
    ensures forall i, j :: 0 <= i < j < |Diff(prev, cur)| ==> Rank(Diff(prev, cur)[i].field) < Rank(Diff(prev, cur)[j].field)
  {
  }

  /** At most one event per field, so at most five per call; five exactly when every field changed. */
  lemma DiffAtMostFive(prev: Control, cur: Control)
    ensures |Diff(prev, cur)| <= 5
    ensures |Diff(prev, cur)| == 5 <==> forall f :: Differs(prev, cur, f)
  {
  }

  /** No change, no event. */
  lemma DiffSelfSilent(c: Control)
    ensures Diff(c, c) == []
  {
  }

  /** `notify_control` is silent exactly when the snapshots are equal. */
  lemma {:induction false} DiffSilentIff(prev: Control, cur: Control)
    ensures Diff(prev, cur) == [] <==> prev == cur
  {
    SnapshotExtensional(prev, cur);
    if Diff(prev, cur) == [] {
      forall f ensures !Differs(prev, cur, f) {
        DiffComplete(prev, cur, f);
      }
    }
  }

  /** Snapshots that differ in exactly one field give exactly one event, for that field. */
  lemma {:induction false} DiffSingleField(prev: Control, cur: Control, f: Field)
    requires Differs(prev, cur, f)
    requires forall g :: g != f ==> !Differs(prev, cur, g)
    ensures Diff(prev, cur) == [Event(f, Encoded(cur, f))]
  {
    assert f != LeftRightField ==> !Differs(prev, cur, LeftRightField);
    assert f != UpDownField ==> !Differs(prev, cur, UpDownField);
    assert f != ShootField ==> !Differs(prev, cur, ShootField);
    assert f != JumpField ==> !Differs(prev, cur, JumpField);
    assert f != SpinField ==> !Differs(prev, cur, SpinField);
  }

  /**
   * A subscriber's copy of the state after receiving event `e`: the field takes
   * the decoded value; a value that decodes to nothing leaves it as it was.
   */
  ghost function Receive(c: Control, e: Event): Control
  {
    match e.field
    case LeftRightField =>
      if e.value.I8? && LeftRightFromI8(e.value.byte).Some? then c.(leftRight := LeftRightFromI8(e.value.byte).value) else c
    case UpDownField =>
      if e.value.I8? && UpDownFromI8(e.value.byte).Some? then c.(upDown := UpDownFromI8(e.value.byte).value) else c
    case ShootField => if e.value.Bool? then c.(shoot := e.value.flag) else c
    case JumpField => if e.value.Bool? then c.(jump := e.value.flag) else c
    case SpinField => if e.value.Bool? then c.(spin := e.value.flag) else c
  }

  /** A subscriber's copy after receiving `es` in order. */
  ghost function ReceiveAll(c: Control, es: seq<Event>): Control
    decreases |es|
  {
    if es == [] then c else ReceiveAll(Receive(c, es[0]), es[1..])
  }

  lemma {:induction false} ReceiveAllConcat(c: Control, a: seq<Event>, b: seq<Event>)
    ensures ReceiveAll(c, a + b) == ReceiveAll(ReceiveAll(c, a), b)
    decreases |a|
  {
    if a == [] {
      assert a + b == b;
    } else {
      assert (a + b)[1..] == a[1..] + b;
      ReceiveAllConcat(Receive(c, a[0]), a[1..], b);
    }
  }

  /** Receiving the edge for `f` brings field `f` of the copy to its value in `cur`. */
  lemma {:induction false} ReceiveEdge(c: Control, prev: Control, cur: Control, f: Field)
    requires !Differs(prev, cur, f) ==> !Differs(c, cur, f)
    ensures !Differs(ReceiveAll(c, Edge(prev, cur, f)), cur, f)
    ensures forall g :: g != f ==> Differs(ReceiveAll(c, Edge(prev, cur, f)), cur, g) == Differs(c, cur, g)
  {
    if Differs(prev, cur, f) {
      var e := Event(f, Encoded(cur, f));
      assert Edge(prev, cur, f) == [e];
      assert ReceiveAll(c, [e]) == Receive(c, e);
      LeftRightRoundTrip(cur.leftRight, 0);
      UpDownRoundTrip(cur.upDown, 0);
    } else {
      assert ReceiveAll(c, []) == c;
    }
  }

  /** Replaying the notifications of one cycle on the previous snapshot gives the current one. */
  lemma {:induction false} ReceiveDiff(prev: Control, cur: Control)
    ensures ReceiveAll(prev, Diff(prev, cur)) == cur
  {
    var e1, e2, e3 := Edge(prev, cur, LeftRightField), Edge(prev, cur, UpDownField), Edge(prev, cur, ShootField);
    var e4, e5 := Edge(prev, cur, JumpField), Edge(prev, cur, SpinField);
    ReceiveAllConcat(prev, e1 + e2 + e3 + e4, e5);
    ReceiveAllConcat(prev, e1 + e2 + e3, e4);
    ReceiveAllConcat(prev, e1 + e2, e3);
    ReceiveAllConcat(prev, e1, e2);
    var c1 := ReceiveAll(prev, e1);
    ReceiveEdge(prev, prev, cur, LeftRightField);
    var c2 := ReceiveAll(c1, e2);
    ReceiveEdge(c1, prev, cur, UpDownField);
    var c3 := ReceiveAll(c2, e3);
    ReceiveEdge(c2, prev, cur, ShootField);
    var c4 := ReceiveAll(c3, e4);
    ReceiveEdge(c3, prev, cur, JumpField);
    var c5 := ReceiveAll(c4, e5);
    ReceiveEdge(c4, prev, cur, SpinField);
    SnapshotExtensional(c5, cur);
  }

  /** The GATT server with its connection, as the sink of notifications, and the device log. */
  class Sink {
    /** Every notification requested, in order. */
    var sent: seq<Event>
    /** Every line `unwrap_notify` logged, in order. */
    var log: seq<Status>

    constructor ()
      ensures sent == [] && log == []
    {
      sent := [];
      log := [];
    }

    /** `<field>_notify(connection, value)`: the result is the radio stack's and may be either. */
    method Notify(e: Event) returns (ok: bool)
      modifies this
      ensures sent == old(sent) + [e] && log == old(log)
    {
      sent := sent + [e];
      ok :| true;
    }

    /** `unwrap_notify`: logs the outcome and swallows it. */
    method UnwrapNotify(ok: bool, name: string)
      modifies this
      ensures log == old(log) + [Status(name, ok)] && sent == old(sent)
    {
      log := log + [Status(name, ok)];
    }
  }

  /** The field names a log mentions, in order. */
  ghost function LoggedNames(log: seq<Status>): seq<string>
  {
    if log == [] then [] else LoggedNames(log[..|log| - 1]) + [log[|log| - 1].name]
  }

  /** The names of the fields of `es`, in order. */
  ghost function NamesOf(es: seq<Event>): seq<string>
  {
    if es == [] then [] else NamesOf(es[..|es| - 1]) + [FieldName(es[|es| - 1].field)]
  }

  lemma {:induction false} NamesOfConcat(a: seq<Event>, b: seq<Event>)
    ensures NamesOf(a + b) == NamesOf(a) + NamesOf(b)
    decreases |b|
  {
    if b == [] {
      assert a + b == a;
    } else {
      assert (a + b)[..|a + b| - 1] == a + b[..|b| - 1];
      NamesOfConcat(a, b[..|b| - 1]);
    }
  }

  /** The names of a cycle's events are the names of its edges, in field order. */
  lemma {:induction false} NamesOfDiff(prev: Control, cur: Control)
    ensures NamesOf(Diff(prev, cur)) == NamesOf(Edge(prev, cur, LeftRightField)) + NamesOf(Edge(prev, cur, UpDownField))
      + NamesOf(Edge(prev, cur, ShootField)) + NamesOf(Edge(prev, cur, JumpField)) + NamesOf(Edge(prev, cur, SpinField))
  {
    var e1, e2, e3 := Edge(prev, cur, LeftRightField), Edge(prev, cur, UpDownField), Edge(prev, cur, ShootField);
    var e4, e5 := Edge(prev, cur, JumpField), Edge(prev, cur, SpinField);
    NamesOfConcat(e1, e2);
    NamesOfConcat(e1 + e2, e3);
    NamesOfConcat(e1 + e2 + e3, e4);
    NamesOfConcat(e1 + e2 + e3 + e4, e5);
  }

  /** The names a log mentions are its lines' names, index by index. */
  lemma {:induction false} LoggedNamesAt(log: seq<Status>)
    ensures |LoggedNames(log)| == |log|
    ensures forall i :: 0 <= i < |log| ==> LoggedNames(log)[i] == log[i].name
    decreases |log|
  {
    if log != [] {
      LoggedNamesAt(log[..|log| - 1]);
    }
  }

  /** The names of a sequence of events are their fields' names, index by index. */
  lemma {:induction false} NamesOfAt(es: seq<Event>)
    ensures |NamesOf(es)| == |es|
    ensures forall i :: 0 <= i < |es| ==> NamesOf(es)[i] == FieldName(es[i].field)
    decreases |es|
  {
    if es != [] {
      NamesOfAt(es[..|es| - 1]);
    }
  }

  /** The lines of `log` after `before` name the fields of `es`, one line per event, in order. */
  ghost predicate LinesName(log: seq<Status>, before: seq<Status>, es: seq<Event>)
  {
    |log| == |before| + |es| && forall i :: 0 <= i < |es| ==> log[|before| + i].name == FieldName(es[i].field)
  }

  /** A log that grew by one line per event of `es`, named as the events, names them line by line. */
  lemma {:induction false} LinesNameEvents(log: seq<Status>, before: seq<Status>, es: seq<Event>)
    requires |log| == |before| + |es|
    requires LoggedNames(log) == LoggedNames(before) + NamesOf(es)
    ensures LinesName(log, before, es)
  {
    LoggedNamesAt(log);
    LoggedNamesAt(before);
    NamesOfAt(es);
    forall i | 0 <= i < |es|
      ensures log[|before| + i].name == FieldName(es[i].field)
    {
      assert LoggedNames(log)[|before| + i] == NamesOf(es)[i];
    }
  }

  /**
   * The block of `notify_control` for field `f`: if it changed, notify its new
   * value and let `unwrap_notify` log and swallow the outcome. Earlier log
   * lines are left as they were.
   */
  method NotifyIfChanged(prev: Control, cur: Control, f: Field, sink: Sink)
    modifies sink
    ensures sink.sent == old(sink.sent) + Edge(prev, cur, f)
    ensures |sink.log| == |old(sink.log)| + |Edge(prev, cur, f)|
    ensures old(sink.log) <= sink.log
    ensures LoggedNames(sink.log) == LoggedNames(old(sink.log)) + NamesOf(Edge(prev, cur, f))
  {
    if Differs(prev, cur, f) {
      var ok := sink.Notify(Event(f, Encoded(cur, f)));
      ghost var before := sink.log;
      sink.UnwrapNotify(ok, FieldName(f));
      assert sink.log[..|sink.log| - 1] == before;
      assert NamesOf([Event(f, Encoded(cur, f))]) == [FieldName(f)];
    }
  }

  lemma Regroup<T>(a: seq<T>, b: seq<T>, c: seq<T>, d: seq<T>, e: seq<T>, f: seq<T>)
    ensures a + b + c + d + e + f == a + (b + c + d + e + f)
  {
  }

  lemma Assoc<T>(a: seq<T>, b: seq<T>, c: seq<T>)
    ensures a + b + c == a + (b + c)
  {
  }

  lemma PrefixTrans<T>(a: seq<T>, b: seq<T>, c: seq<T>)
    requires a <= b && b <= c
    ensures a <= c
  {
  }

  /**
   * `log` is `before` followed by one line per event of `es`, named after the
   * event's field: the lines already there are kept.
   */
  ghost predicate Logs(log: seq<Status>, before: seq<Status>, es: seq<Event>)
  {
    |log| == |before| + |es| && before <= log && LoggedNames(log) == LoggedNames(before) + NamesOf(es)
  }

  /** Two stretches of logging, one after the other, log the events of both stretches. */
  lemma {:induction false} LogAppend(log0: seq<Status>, log1: seq<Status>, log2: seq<Status>, a: seq<Event>, b: seq<Event>)
    requires Logs(log1, log0, a) && Logs(log2, log1, b)
    ensures Logs(log2, log0, a + b)
  {
    PrefixTrans(log0, log1, log2);
    NamesOfConcat(a, b);
    Assoc(LoggedNames(log0), NamesOf(a), NamesOf(b));
  }

  /**
   * `notify_control`: one notification per changed field, in field order,
   * carrying the new value. Each outcome, success or failure, adds one log line
   * named after its field, and a failed notification does not stop the later
   * ones; the lines logged before are kept unchanged.
   */
  method NotifyControl(prev: Control, cur: Control, sink: Sink)
    modifies sink
    ensures sink.sent == old(sink.sent) + Diff(prev, cur)
    ensures Logs(sink.log, old(sink.log), Diff(prev, cur))
    ensures LinesName(sink.log, old(sink.log), Diff(prev, cur))
  {
    ghost var sent, log0, names := sink.sent, sink.log, LoggedNames(sink.log);
    ghost var e1, e2, e3 := Edge(prev, cur, LeftRightField), Edge(prev, cur, UpDownField), Edge(prev, cur, ShootField);
    ghost var e4, e5 := Edge(prev, cur, JumpField), Edge(prev, cur, SpinField);
    NotifyIfChanged(prev, cur, LeftRightField, sink);
    ghost var log1 := sink.log;
    NotifyIfChanged(prev, cur, UpDownField, sink);
    PrefixTrans(log0, log1, sink.log);
    ghost var log2 := sink.log;
    NotifyIfChanged(prev, cur, ShootField, sink);
    PrefixTrans(log0, log2, sink.log);
    ghost var log3 := sink.log;
    NotifyIfChanged(prev, cur, JumpField, sink);
    PrefixTrans(log0, log3, sink.log);
    ghost var log4 := sink.log;
    NotifyIfChanged(prev, cur, SpinField, sink);
    PrefixTrans(log0, log4, sink.log);
    Regroup(sent, e1, e2, e3, e4, e5);
    NamesOfDiff(prev, cur);
    Regroup(names, NamesOf(e1), NamesOf(e2), NamesOf(e3), NamesOf(e4), NamesOf(e5));
    LinesNameEvents(sink.log, log0, Diff(prev, cur));
  }
}
