/** The maintenance board: one column per lifecycle state, each showing the
    fetched requests in that state, and the drag-and-drop handler that moves
    a card to another column before the server confirms the change. */
module Kanban {
  import opened Records
  import opened Lists
  import opened Lifecycle
  import opened Queries

  // ---- Card ids: the decimal text a card carries and its parsed value ----------

  predicate IsDigit(c: char)
  {
    '0' <= c <= '9'
  }

  function DigitChar(d: nat): (c: char)
    requires d < 10
    ensures IsDigit(c) && c as int - '0' as int == d
  {
    ('0' as int + d) as char
  }

  /** The decimal text of a card's id, as `String(id)` writes it. */
  function NatToString(n: nat): (s: string)
    ensures |s| >= 1
    ensures forall i :: 0 <= i < |s| ==> IsDigit(s[i])
    decreases n
  {
    if n < 10 then [DigitChar(n)] else NatToString(n / 10) + [DigitChar(n % 10)]
  }

  /** The value of a run of decimal digits. */
  function DigitsValue(s: string): nat
    requires forall i :: 0 <= i < |s| ==> IsDigit(s[i])
  {
    if s == [] then 0
    else
      assert IsDigit(s[|s| - 1]);
      DigitsValue(s[..|s| - 1]) * 10 + (s[|s| - 1] as int - '0' as int)
  }

  /** The length of the run of digits at the start of `s`. */
  function LeadingDigits(s: string): (k: nat)
    ensures k <= |s|
    ensures forall i :: 0 <= i < k ==> IsDigit(s[i])
    ensures k < |s| ==> !IsDigit(s[k])
  {
    if s == [] || !IsDigit(s[0]) then 0 else 1 + LeadingDigits(s[1..])
  }

  /** `parseInt` on a card id: the value of the leading digits, or no number
      (NaN, which equals no id) when the text does not start with a digit. */
  function ParseInt(s: string): (r: Option<nat>)
    ensures r.None? <==> s == [] || !IsDigit(s[0])
    ensures r.Some? ==> r.value == DigitsValue(s[..LeadingDigits(s)])
  {
    var k := LeadingDigits(s);
    if k == 0 then None else Some(DigitsValue(s[..k]))
  }

  lemma {:induction false} DigitsValueOfString(n: nat)
    ensures DigitsValue(NatToString(n)) == n
    decreases n
  {
    if n >= 10 {
      var s := NatToString(n);
      assert s[..|s| - 1] == NatToString(n / 10);
      DigitsValueOfString(n / 10);
    }
  }

  /** Parsing the text of a card's id gives the id back. */
  lemma ParseIntOfString(n: nat)
    ensures ParseInt(NatToString(n)) == Some(n)
  {
    var s := NatToString(n);
    assert LeadingDigits(s) == |s|;
    assert s[..|s|] == s;
    DigitsValueOfString(n);
  }

  /** The drop handler's comparison `req.id === parseInt(draggableId)` picks
      out exactly the dragged card. */
  lemma CardIdMatches(dragged: nat, id: nat)
    ensures ParseInt(NatToString(dragged)) == Some(id) <==> id == dragged
  {
    ParseIntOfString(dragged);
  }

  // ---- Columns ------------------------------------------------------------------

  /** A board column: the status it shows and its heading. */
  datatype Column = Column(id: string, title: string)

  const Columns: seq<Column> := [
    Column(NEW, "To Do"),
    Column(IN_PROGRESS, "In Progress"),
    Column(REPAIRED, "Done"),
    Column(SCRAP, "Scrap")]

  /** The statuses that have a column: exactly the ids of the board's columns. */
  function HasColumn(status: string): (b: bool)
    ensures b <==> exists i :: 0 <= i < |Columns| && Columns[i].id == status
  {
    assert Columns[0].id == NEW && Columns[1].id == IN_PROGRESS && Columns[2].id == REPAIRED && Columns[3].id == SCRAP;
    status == NEW || status == IN_PROGRESS || status == REPAIRED || status == SCRAP
  }

  /** No two columns show the same status. */
  lemma ColumnsAreDistinct()
    ensures forall i, j :: 0 <= i < j < |Columns| ==> Columns[i].id != Columns[j].id
  {
  }

  /** The cards of one column: the rows in that status, in fetched order. */
  function ByStatus(rows: seq<ListedRequest>, status: string): (cards: seq<ListedRequest>)
    ensures forall r :: r in cards <==> r in rows && r.request.status == status
  {
    Filter(rows, (r: ListedRequest) => r.request.status == status)
  }

  /** The rows some column shows. */
  function OnBoard(rows: seq<ListedRequest>): (cards: seq<ListedRequest>)
    ensures forall r :: r in cards <==> r in rows && HasColumn(r.request.status)
  {
    Filter(rows, (r: ListedRequest) => HasColumn(r.request.status))
  }

  /** The four column counters added up. */
  function CardsShown(rows: seq<ListedRequest>): nat
  {
    |ByStatus(rows, NEW)| + |ByStatus(rows, IN_PROGRESS)| + |ByStatus(rows, REPAIRED)| + |ByStatus(rows, SCRAP)|
  }

  lemma ByStatusCons(x: ListedRequest, rest: seq<ListedRequest>, status: string)
    ensures ByStatus([x] + rest, status) ==
      (if x.request.status == status then [x] else []) + ByStatus(rest, status)
  {
  }

  lemma OnBoardCons(x: ListedRequest, rest: seq<ListedRequest>)
    ensures OnBoard([x] + rest) == (if HasColumn(x.request.status) then [x] else []) + OnBoard(rest)
  {
  }

  /** The columns partition the rows they show: every such row is counted in
      exactly one column, and rows in any other status in none. */
  lemma {:induction false} EveryCardOnce(rows: seq<ListedRequest>)
    ensures CardsShown(rows) == |OnBoard(rows)|
  {
    if rows != [] {
      var x, rest := rows[0], rows[1..];
      assert rows == [x] + rest;
      ByStatusCons(x, rest, NEW);
      ByStatusCons(x, rest, IN_PROGRESS);
      ByStatusCons(x, rest, REPAIRED);
      ByStatusCons(x, rest, SCRAP);
      OnBoardCons(x, rest);
      EveryCardOnce(rest);
    }
  }

  /** When every row is in a column's status, the counters add up to the number of rows. */
  lemma AllCardsShown(rows: seq<ListedRequest>)
    requires forall k :: 0 <= k < |rows| ==> HasColumn(rows[k].request.status)
    ensures CardsShown(rows) == |rows|
  {
    EveryCardOnce(rows);
    FilterAll(rows, (r: ListedRequest) => HasColumn(r.request.status));
  }

  // ---- Card face ----------------------------------------------------------------

  datatype Badge = Red | Yellow | Green

  /** The priority badge: red for HIGH, yellow for MEDIUM, green otherwise. */
  function PriorityBadge(priority: string): (b: Badge)
    ensures b == Red <==> priority == HIGH
    ensures b == Yellow <==> priority == MEDIUM
    ensures b == Green <==> priority != HIGH && priority != MEDIUM
  {
    if priority == HIGH then Red else if priority == MEDIUM then Yellow else Green
  }

  /** The equipment line of a card: the joined equipment's name, even when it
      is empty, or "Unknown Equipment" when there is none. */
  function EquipmentCaption(r: ListedRequest): (caption: string)
    ensures r.equipment.Some? ==> caption == r.equipment.value.name
    ensures r.equipment.None? ==> caption == "Unknown Equipment"
  {
    if r.equipment.Some? then r.equipment.value.name else "Unknown Equipment"
  }

  // ---- Dropping a card ----------------------------------------------------------

  /** One row after the drop: the dragged card takes the new status, and every
      other row is kept as it was. */
  function MoveCard(r: ListedRequest, id: Option<nat>, status: string): (r': ListedRequest)
    ensures id == Some(r.request.id) ==> r' == r.(request := r.request.(status := status))
    ensures id != Some(r.request.id) ==> r' == r
  {
    if id == Some(r.request.id) then r.(request := r.request.(status := status)) else r
  }

  /** The optimistic update: every row mapped through MoveCard. */
  function WithStatus(rows: seq<ListedRequest>, id: Option<nat>, status: string): (moved: seq<ListedRequest>)
    ensures |moved| == |rows|
    ensures forall k :: 0 <= k < |rows| ==> moved[k] == MoveCard(rows[k], id, status)
  {
    if rows == [] then [] else [MoveCard(rows[0], id, status)] + WithStatus(rows[1..], id, status)
  }

  /** Rows other than card `id`. */
  function Without(rows: seq<ListedRequest>, id: nat): seq<ListedRequest>
  {
    Filter(rows, (r: ListedRequest) => r.request.id != id)
  }

  /** After the drop, every other column shows what it showed before, less the dragged card. */
  lemma {:induction false} MoveEmptiesOtherColumns(rows: seq<ListedRequest>, id: nat, status: string, other: string)
    requires other != status
    ensures ByStatus(WithStatus(rows, Some(id), status), other) == Without(ByStatus(rows, other), id)
  {
    if rows != [] {
      var x, rest := rows[0], rows[1..];
      assert rows == [x] + rest;
      var moved := WithStatus(rows, Some(id), status);
      assert moved == [MoveCard(x, Some(id), status)] + WithStatus(rest, Some(id), status);
      ByStatusCons(MoveCard(x, Some(id), status), WithStatus(rest, Some(id), status), other);
      ByStatusCons(x, rest, other);
      MoveEmptiesOtherColumns(rest, id, status, other);
      var head := if x.request.status == other then [x] else [];
      FilterConcat(head, ByStatus(rest, other), (r: ListedRequest) => r.request.id != id);
    }
  }

  /** After the drop, the target column shows every row it showed before,
      and the dragged card in its new status. */
  lemma MoveFillsTarget(rows: seq<ListedRequest>, id: nat, status: string)
    ensures var target := ByStatus(WithStatus(rows, Some(id), status), status);
      && (forall r :: r in rows && r.request.status == status ==> r in target)
      && (forall r :: r in rows && r.request.id == id ==> r.(request := r.request.(status := status)) in target)
  {
  }

  /** A drop between columns keeps every card on the board. */
  lemma MoveKeepsCardCount(rows: seq<ListedRequest>, id: nat, status: string)
    requires HasColumn(status)
    requires forall k :: 0 <= k < |rows| ==> HasColumn(rows[k].request.status)
    ensures CardsShown(WithStatus(rows, Some(id), status)) == CardsShown(rows) == |rows|
  {
    AllCardsShown(rows);
    AllCardsShown(WithStatus(rows, Some(id), status));
  }

  // ---- Agreement with the server --------------------------------------------------

  /** The board's optimistic move agrees with what the server stores once the
      status update succeeds: the requests are the ones a refetch would
      return, and, unless the move is to SCRAP, so is the equipment shown
      with them. */
  lemma OptimisticMatchesServer(t: Tables, id: nat, status: string, n: nat)
    requires WellFormed(t) && id in t.requests
    ensures var moved := WithStatus(Listing(t, None, n), Some(id), status);
      var refetched := Listing(AfterUpdateStatus(t, id, Some(status), None), None, n);
      && |moved| == |refetched|
      && (forall k :: 0 <= k < |moved| ==> moved[k].request == refetched[k].request)
      && (status != SCRAP ==> moved == refetched)
  {
    var t' := AfterUpdateStatus(t, id, Some(status), None);
    var w := StatusWrite(t.requests[id], Some(status), None);
    assert w == t.requests[id].(status := status);
    SelectAllAfterWrite(t.requests, t.equipment, t'.equipment, n, id, w);
  }

  // ---- The board component ------------------------------------------------------

  /** The status update the board sends after a drop: the card's id text and
      the target column. */
  datatype StatusPatch = StatusPatch(draggableId: string, status: string)

  class Board {
    /** The rows last fetched from the request listing, as locally updated. */
    var requests: seq<ListedRequest>

    constructor ()
      ensures requests == []
    {
      requests := [];
    }

    /** The cards of the column for `status`: the rows in that status, no
        more of them than there are rows. */
    function RequestsByStatus(status: string): (cards: seq<ListedRequest>)
      reads this
      ensures forall r :: r in cards <==> r in requests && r.request.status == status
      ensures |cards| <= |requests|
    {
      ByStatus(requests, status)
    }

    /** A listing arrived from the server. */
    method Fetched(rows: seq<ListedRequest>)
      modifies this
      ensures requests == rows
    {
      requests := rows;
    }

    /** A drag ended. Dropped outside every column: nothing happens. Dropped on
        a column: the card whose id is the parsed `draggableId` takes that
        column's status at once, and the status update to send is returned. */
    method OnDragEnd(draggableId: string, destination: Option<string>) returns (patch: Option<StatusPatch>)
      modifies this
      ensures destination.None? ==> requests == old(requests) && patch == None
      ensures destination.Some? ==>
        && requests == WithStatus(old(requests), ParseInt(draggableId), destination.value)
        && patch == Some(StatusPatch(draggableId, destination.value))
    {
      if destination.None? {
        return None;
      }
      var newStatus := destination.value;
      requests := WithStatus(requests, ParseInt(draggableId), newStatus);
      patch := Some(StatusPatch(draggableId, newStatus));
    }
  }
}
