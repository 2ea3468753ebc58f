/**
 * The reservation administration page of the meeting-room booking: the
 * list of reservations filtered by status, the action buttons each status
 * offers, and the confirmation dialog that remembers which change the
 * administrator is about to make.
 */
module ReservationAdmin {
  import opened Wrappers

  const Pending: string := "Pending"
  const Approved: string := "Approved"
  const Rejected: string := "Rejected"
  const Cancelled: string := "Cancelled"

  /** The Japanese label of each known status. */
  const StatusMap: map<string, string> := map[
    Pending := "\U{627F}\U{8A8D}\U{5F85}\U{3061}",
    Approved := "\U{627F}\U{8A8D}\U{6E08}\U{307F}",
    Rejected := "\U{5374}\U{4E0B}\U{6E08}\U{307F}",
    Cancelled := "\U{30AD}\U{30E3}\U{30F3}\U{30BB}\U{30EB}\U{6E08}\U{307F}"
  ]

  /** A reservation as the list holds it: its id and its status. */
  datatype Reservation = Reservation(id: string, status: string)

  /** `statusMap[status] || status`. */
  function StatusLabel(status: string): (shown: string)
    ensures status in StatusMap ==> shown == StatusMap[status] && shown != ""
    ensures status !in StatusMap ==> shown == status
  {
    if status in StatusMap && StatusMap[status] != "" then StatusMap[status] else status
  }

  // ---------------------------------------------------------------
  // Filter
  // ---------------------------------------------------------------

  /** The status filter: `all` keeps everything, any other value the equal statuses. */
  function Filter(all: seq<Reservation>, filterStatus: string): seq<Reservation> {
    if all == [] then []
    else
      (if filterStatus == "all" || all[0].status == filterStatus then [all[0]] else [])
      + Filter(all[1..], filterStatus)
  }

  /** Filtering a concatenation filters each part: the kept reservations stay in list order. */
  lemma {:induction false} FilterAppend(a: seq<Reservation>, b: seq<Reservation>, filterStatus: string)
    ensures Filter(a + b, filterStatus) == Filter(a, filterStatus) + Filter(b, filterStatus)
  {
    if a == [] {
      assert a + b == b;
    } else {
      assert (a + b)[0] == a[0] && (a + b)[1..] == a[1..] + b;
      FilterAppend(a[1..], b, filterStatus);
    }
  }

  /**
   * `all` keeps the list as it is; another filter keeps exactly the
   * reservations whose status equals it.
   */
  lemma {:induction false} FilterMeaning(all: seq<Reservation>, filterStatus: string)
    ensures filterStatus == "all" ==> Filter(all, filterStatus) == all
    ensures filterStatus != "all" ==>
      forall r :: r in Filter(all, filterStatus) <==> r in all && r.status == filterStatus
  {
    if all != [] {
      FilterMeaning(all[1..], filterStatus);
      assert all == [all[0]] + all[1..];
    }
  }

  // ---------------------------------------------------------------
  // Status workflow
  // ---------------------------------------------------------------

  /** The new statuses the row's buttons offer, in button order. */
  function Actions(status: string): seq<string> {
    if status == Pending then [Approved, Rejected]
    else if status == Approved then [Cancelled]
    else []
  }

  /** Pending first, then Approved, then the two final statuses. */
  function Stage(status: string): nat {
    if status == Pending then 0 else if status == Approved then 1 else 2
  }

  /**
   * Every offered change moves to a later stage, so nothing leads back to
   * Pending, and Rejected and Cancelled (like any unknown status) offer
   * nothing.
   */
  lemma ActionsMoveForward(status: string)
    ensures forall next :: next in Actions(status) ==> Stage(status) < Stage(next)
    ensures Pending !in Actions(status)
    ensures Stage(status) == 2 <==> Actions(status) == []
    ensures Actions(Rejected) == [] && Actions(Cancelled) == []
  {
  }

  /** A sequence of statuses each reached by a button offered at the one before. */
  predicate IsChain(statuses: seq<string>) {
    forall k :: 0 < k < |statuses| ==> statuses[k] in Actions(statuses[k - 1])
  }

  /** Following the buttons, a reservation changes status at most twice. */
  lemma {:induction false} ChainsAreShort(statuses: seq<string>)
    requires IsChain(statuses) && statuses != []
    ensures |statuses| <= 3 - Stage(statuses[0])
  {
    if |statuses| > 1 {
      ActionsMoveForward(statuses[0]);
      assert IsChain(statuses[1..]);
      ChainsAreShort(statuses[1..]);
    }
  }

  // ---------------------------------------------------------------
  // The table
  // ---------------------------------------------------------------

  /** A rendered row: id, status text and the offered new statuses. */
  datatype RowView = RowView(id: string, statusText: string, actions: seq<string>)

  /** The table body: the "no reservations" placeholder row, or one row per kept reservation. */
  datatype Table = NoReservations | Rows(rows: seq<RowView>)

  function RowOf(r: Reservation): RowView {
    RowView(r.id, StatusLabel(r.status), Actions(r.status))
  }

  /** `renderReservations`. */
  function RenderReservations(all: seq<Reservation>, filterStatus: string): (t: Table)
    ensures t == NoReservations <==> Filter(all, filterStatus) == []
    ensures t.Rows? ==> |t.rows| == |Filter(all, filterStatus)|
    ensures t.Rows? ==> forall k :: 0 <= k < |t.rows| ==> t.rows[k] == RowOf(Filter(all, filterStatus)[k])
  {
    var kept := Filter(all, filterStatus);
    if kept == [] then NoReservations
    else Rows(seq(|kept|, k requires 0 <= k < |kept| => RowOf(kept[k])))
  }

  /** With the `all` filter an empty list, and only an empty list, shows the placeholder. */
  lemma PlaceholderOnlyWhenNothingKept(all: seq<Reservation>)
    ensures RenderReservations(all, "all") == NoReservations <==> all == []
  {
    FilterMeaning(all, "all");
  }

  // ---------------------------------------------------------------
  // The confirmation dialog
  // ---------------------------------------------------------------

  /** The question the dialog asks; empty for a status no button offers. */
  function ConfirmMessage(id: string, newStatus: string): (m: string)
    ensures m != "" <==> newStatus in [Approved, Rejected, Cancelled]
  {
    var head := "\U{4E88}\U{7D04}ID: " + id;
    if newStatus == Approved then head + " \U{3092}\U{627F}\U{8A8D}\U{3057}\U{307E}\U{3059}\U{304B}\U{FF1F}"
    else if newStatus == Rejected then head + " \U{3092}\U{5374}\U{4E0B}\U{3057}\U{307E}\U{3059}\U{304B}\U{FF1F}"
    else if newStatus == Cancelled then
      head + " \U{3092}\U{30AD}\U{30E3}\U{30F3}\U{30BB}\U{30EB}\U{3057}\U{307E}\U{3059}\U{304B}\U{FF1F}"
    else ""
  }

  /** The change the "yes" button sends. */
  datatype StatusChange = StatusChange(reservationId: string, newStatus: string)

  /** The page's state: the loaded reservations and the change awaiting confirmation. */
  class ReservationPage {
    var reservations: seq<Reservation>
    var actionId: Option<string>
    var actionStatus: Option<string>
    var message: string
    var dialogOpen: bool

    /** The two recorded halves of a change are set and cleared together. */
    predicate Valid()
      reads this
    {
      actionId.Some? <==> actionStatus.Some?
    }

    constructor()
      ensures Valid()
      ensures reservations == [] && actionId == None && actionStatus == None
      ensures message == "" && !dialogOpen
    {
      reservations := [];
      actionId := None;
      actionStatus := None;
      message := "";
      dialogOpen := false;
    }

    /** A successful fetch replaces the list; a failed one keeps it. */
    method Loaded(reply: Option<seq<Reservation>>)
      modifies this`reservations
      ensures reply.Some? ==> reservations == reply.value
      ensures reply.None? ==> reservations == old(reservations)
    {
      if reply.Some? {
        reservations := reply.value;
      }
    }

    /** A row's button opens the dialog and records the pending change. */
    method OpenConfirmActionModal(id: string, newStatus: string)
      modifies this`actionId, this`actionStatus, this`message, this`dialogOpen
      ensures Valid()
      ensures actionId == Some(id) && actionStatus == Some(newStatus)
      ensures message == ConfirmMessage(id, newStatus) && dialogOpen
    {
      actionId := Some(id);
      actionStatus := Some(newStatus);
      message := ConfirmMessage(id, newStatus);
      dialogOpen := true;
    }

    /** Closing the dialog forgets the pending change. */
    method CloseConfirmActionModal()
      modifies this`actionId, this`actionStatus, this`dialogOpen
      ensures Valid()
      ensures actionId == None && actionStatus == None && !dialogOpen
    {
      dialogOpen := false;
      actionId := None;
      actionStatus := None;
    }

    /**
     * The "yes" button: the recorded change is read, the dialog is closed,
     * and the change is sent.
     */
    method ConfirmClicked() returns (sent: Option<StatusChange>)
      requires Valid()
      modifies this`actionId, this`actionStatus, this`dialogOpen
      ensures Valid()
      ensures actionId == None && actionStatus == None && !dialogOpen
      ensures old(actionId).Some? ==> sent == Some(StatusChange(old(actionId).value, old(actionStatus).value))
      ensures old(actionId).None? ==> sent == None
    {
      if actionId.Some? {
        sent := Some(StatusChange(actionId.value, actionStatus.value));
      } else {
        sent := None;
      }
      CloseConfirmActionModal();
    }
  }

  /** Opening the dialog from a row's button and confirming sends that row's offered change. */
  method OpenThenConfirm(page: ReservationPage, r: Reservation, k: nat) returns (sent: Option<StatusChange>)
    requires k < |Actions(r.status)|
    modifies page
    ensures sent == Some(StatusChange(r.id, Actions(r.status)[k]))
    ensures Stage(r.status) < Stage(sent.value.newStatus)
    ensures page.actionId == None && page.actionStatus == None
  {
    ActionsMoveForward(r.status);
    page.OpenConfirmActionModal(r.id, Actions(r.status)[k]);
    sent := page.ConfirmClicked();
  }
}
