/**
 `wsp::node_status`: the node's current membership status, together with the
 notifications it has sent through the `wsrep_notify_status` upcall. The upcall
 itself belongs to the server and is modelled as an append to a log.
 */
module NodeStatus {
  import opened Wrappers

  /** The member states of the replication API (`wsrep_member_status_t`). */
  datatype MemberStatus = Undefined | Joiner | Donor | Joined | Synced | Error

  /** An opaque view-information snapshot (`wsrep_view_info_t`); `None` is the null pointer. */
  datatype ViewInfo = ViewInfo(id: nat)

  /** One call of the notification upcall. */
  datatype Notification = Notification(status: MemberStatus, view: Option<ViewInfo>)

  datatype Tracker = Tracker(status: MemberStatus, notified: seq<Notification>)

  /** One call of `set(new_status, view)`. */
  datatype SetCall = SetCall(newStatus: MemberStatus, view: Option<ViewInfo>)

  /** The constructor: status undefined, nothing notified yet. */
  function Init(): (t: Tracker)
    ensures Get(t) == Undefined
    ensures t.notified == []
    ensures Valid(t)
  {
    Tracker(Undefined, [])
  }

  function Get(t: Tracker): MemberStatus {
    t.status
  }

  /** Whether `set(newStatus, view)` reaches the upcall: the status changes or a view is supplied. */
  predicate Notifies(t: Tracker, newStatus: MemberStatus, view: Option<ViewInfo>) {
    newStatus != t.status || view.Some?
  }

  /**
   `set`: afterwards the status is always `newStatus`; exactly one notification
   `(newStatus, view)` is appended when the call notifies, and none otherwise.
   */
  function Set(t: Tracker, newStatus: MemberStatus, view: Option<ViewInfo>): (r: Tracker)
    ensures Get(r) == newStatus
    ensures Notifies(t, newStatus, view) ==> r.notified == t.notified + [Notification(newStatus, view)]
    ensures !Notifies(t, newStatus, view) ==> r == t
  {
    if newStatus != t.status || view != None then
      Tracker(newStatus, t.notified + [Notification(newStatus, view)])
    else
      t
  }

  /** The tracker after a sequence of `set` calls. */
  function Run(t: Tracker, calls: seq<SetCall>): Tracker
    decreases |calls|
  {
    if |calls| == 0 then t
    else Run(Set(t, calls[0].newStatus, calls[0].view), calls[1..])
  }

  /**
   No notification is redundant: one without a view always reports a status
   different from the one before it (the first one from `Undefined`).
   */
  predicate NoRedundantNotification(log: seq<Notification>) {
    && (|log| > 0 && log[0].view.None? ==> log[0].status != Undefined)
    && forall i :: 0 < i < |log| && log[i].view.None? ==> log[i].status != log[i - 1].status
  }

  /** The reported status is the last one notified, and no notification is redundant. */
  predicate Valid(t: Tracker) {
    && (|t.notified| == 0 ==> t.status == Undefined)
    && (|t.notified| > 0 ==> t.status == t.notified[|t.notified| - 1].status)
    && NoRedundantNotification(t.notified)
  }

  lemma SetKeepsValid(t: Tracker, newStatus: MemberStatus, view: Option<ViewInfo>)
    requires Valid(t)
    ensures Valid(Set(t, newStatus, view))
  {
  }

  /** Every sequence of `set` calls keeps the tracker valid. */
  lemma {:induction false} RunKeepsValid(t: Tracker, calls: seq<SetCall>)
    requires Valid(t)
    ensures Valid(Run(t, calls))
    decreases |calls|
  {
    if |calls| > 0 {
      SetKeepsValid(t, calls[0].newStatus, calls[0].view);
      RunKeepsValid(Set(t, calls[0].newStatus, calls[0].view), calls[1..]);
    }
  }

  /** A run only appends: the earlier notifications are never changed or lost. */
  lemma {:induction false} RunExtendsLog(t: Tracker, calls: seq<SetCall>)
    ensures t.notified <= Run(t, calls).notified
    ensures |Run(t, calls).notified| <= |t.notified| + |calls|
    decreases |calls|
  {
    if |calls| > 0 {
      RunExtendsLog(Set(t, calls[0].newStatus, calls[0].view), calls[1..]);
    }
  }

  /** After any calls, `get()` reports the status of the last call, or `Undefined` if there was none. */
  lemma {:induction false} RunReportsLastStatus(t: Tracker, calls: seq<SetCall>)
    ensures Get(Run(t, calls)) == if |calls| == 0 then Get(t) else calls[|calls| - 1].newStatus
    decreases |calls|
  {
    if |calls| > 0 {
      RunReportsLastStatus(Set(t, calls[0].newStatus, calls[0].view), calls[1..]);
    }
  }

  /** Repeating the current status without a view changes nothing, however often. */
  lemma {:induction false} RepeatIsNoOp(t: Tracker, calls: seq<SetCall>)
    requires forall i :: 0 <= i < |calls| ==> calls[i] == SetCall(t.status, None)
    ensures Run(t, calls) == t
    decreases |calls|
  {
    if |calls| > 0 {
      RepeatIsNoOp(t, calls[1..]);
    }
  }

  /**
   The in-place form of the class: `notified` is a ghost record of the upcalls,
   `SetStatus` is the functional `Set` applied to the current state, and the
   object keeps the invariant `Valid` from construction on.
   */
  class NodeStatusCell {
    var status: MemberStatus
    ghost var notified: seq<Notification>

    /** `node_status()`: status undefined, nothing notified yet. */
    constructor Create()
      ensures status == Undefined && notified == []
      ensures Valid(Tracker(status, notified))
    {
      status := Undefined;
      notified := [];
    }

    function GetStatus(): MemberStatus
      reads this
    {
      status
    }

    /** `set(new_status, view)`: the upcall fires exactly when the status changes or a view is given. */
    method SetStatus(newStatus: MemberStatus, view: Option<ViewInfo>)
      requires Valid(Tracker(status, notified))
      modifies this
      ensures Tracker(status, notified) == Set(Tracker(old(status), old(notified)), newStatus, view)
      ensures Valid(Tracker(status, notified))
    {
      SetKeepsValid(Tracker(status, notified), newStatus, view);
      if status != newStatus || view != None {
        notified := notified + [Notification(newStatus, view)];
        status := newStatus;
      }
    }
  }
}
