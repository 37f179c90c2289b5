/** Keyset pagination: audit history newest first, and manageable groups by ascending identity. */
module Pagination {
  import opened Wrappers
  import opened Decimal

  const MAX_AUDIT_PAGE := 50

  // ----- Cursors -----

  /** The position of the last occurrence of a character. */
  function LastIndex(s: string, c: char): (i: Option<nat>)
    ensures i.Some? ==> i.value < |s| && s[i.value] == c && c !in s[i.value + 1..]
    ensures i.None? ==> c !in s
  {
    if s == "" then None
    else if s[|s| - 1] == c then Some(|s| - 1)
    else
      var earlier := LastIndex(s[..|s| - 1], c);
      assert s == s[..|s| - 1] + [s[|s| - 1]];
      assert earlier.Some? ==> s[earlier.value + 1..] == s[..|s| - 1][earlier.value + 1..] + [s[|s| - 1]];
      earlier
  }

  function PrintCursor(stamp: string, id: nat): string {
    stamp + "|" + Print(id)
  }

  /** Split at the last bar; a cursor without one, or with anything but a number after it, is invalid. */
  function ParseCursor(cursor: string): Option<(string, nat)> {
    match LastIndex(cursor, '|')
    case None => None
    case Some(i) =>
      if cursor[i + 1..] != "" && AllDigits(cursor[i + 1..]) then Some((cursor[..i], Value(cursor[i + 1..]))) else None
  }

  lemma {:induction false} LastIndexIs(s: string, tail: string, c: char)
    requires c !in tail
    ensures LastIndex(s + [c] + tail, c) == Some(|s|)
  {
    if tail == "" {
      assert s + [c] + tail == s + [c];
    } else {
      LastIndexIs(s, tail[..|tail| - 1], c);
      assert (s + [c] + tail)[..|s| + |tail|] == s + [c] + tail[..|tail| - 1];
    }
  }

  /** Printing and parsing a cursor undo each other, whatever the time stamp looks like. */
  lemma CursorRoundTrip(stamp: string, id: nat)
    ensures ParseCursor(PrintCursor(stamp, id)) == Some((stamp, id))
  {
    PrintRoundTrip(id);
    var digits := Print(id);
    assert '|' !in digits;
    LastIndexIs(stamp, digits, '|');
    var cursor := stamp + ['|'] + digits;
    assert PrintCursor(stamp, id) == cursor;
    assert cursor[|stamp| + 1..] == digits && cursor[..|stamp|] == stamp;
  }

  // ----- Audit history -----

  datatype Row = Row(at: int, id: int, targetType: string, action: string)

  datatype Filter = Filter(targetType: Option<string>, action: Option<string>, since: Option<int>, until: Option<int>)

  datatype Position = Position(at: int, id: int)

  predicate Matches(filter: Filter, row: Row) {
    && (filter.targetType.Some? ==> row.targetType == filter.targetType.value)
    && (filter.action.Some? ==> row.action == filter.action.value)
    && (filter.since.Some? ==> row.at >= filter.since.value)
    && (filter.until.Some? ==> row.at <= filter.until.value)
  }

  predicate Older(a: Row, p: Position) {
    a.at < p.at || (a.at == p.at && a.id < p.id)
  }

  function PositionOf(row: Row): Position {
    Position(row.at, row.id)
  }

  /** Strictly newest first, as the index orders the rows. */
  predicate NewestFirst(rows: seq<Row>) {
    forall i, j :: 0 <= i < j < |rows| ==> Older(rows[j], PositionOf(rows[i]))
  }

  predicate Asked(filter: Filter, before: Option<Position>, row: Row) {
    Matches(filter, row) && (before.Some? ==> Older(row, before.value))
  }

  /** The rows a query may return, in order. */
  function Wanted(rows: seq<Row>, filter: Filter, before: Option<Position>): seq<Row> {
    if rows == [] then []
    else (if Asked(filter, before, rows[0]) then [rows[0]] else []) + Wanted(rows[1..], filter, before)
  }

  function Take<T>(s: seq<T>, n: nat): seq<T> {
    if |s| <= n then s else s[..n]
  }

  function Bounded(limit: int): nat {
    if limit < 1 then 1 else if limit < MAX_AUDIT_PAGE then limit else MAX_AUDIT_PAGE
  }

  datatype AuditPage = AuditPage(entries: seq<Row>, next: Option<Position>)

  function Query(rows: seq<Row>, filter: Filter, before: Option<Position>, limit: int): AuditPage {
    var entries := Take(Wanted(rows, filter, before), Bounded(limit));
    AuditPage(entries, if |entries| == Bounded(limit) then Some(PositionOf(entries[|entries| - 1])) else None)
  }

  /** One page request: the rows appended since the first page, and the limit asked for. */
  datatype Request = Request(newer: seq<Row>, limit: int)

  /** Following cursors over a growing table until one page has none. */
  function Follow(rows: seq<Row>, filter: Filter, before: Option<Position>, requests: seq<Request>): seq<Row>
    decreases |requests|
  {
    if requests == [] then []
    else
      var page := Query(requests[0].newer + rows, filter, before, requests[0].limit);
      if page.next.None? then page.entries else page.entries + Follow(rows, filter, page.next, requests[1..])
  }

  lemma {:induction false} WantedSkipsNewer(newer: seq<Row>, rows: seq<Row>, filter: Filter, before: Option<Position>)
    requires newer == [] || (before.Some? && forall i :: 0 <= i < |newer| ==> !Older(newer[i], before.value))
    ensures Wanted(newer + rows, filter, before) == Wanted(rows, filter, before)
  {
    if newer == [] {
      assert newer + rows == rows;
    } else {
      assert (newer + rows)[1..] == newer[1..] + rows;
      WantedSkipsNewer(newer[1..], rows, filter, before);
    }
  }

  lemma {:induction false} WantedIsListed(rows: seq<Row>, filter: Filter, before: Option<Position>, i: nat)
    requires i < |Wanted(rows, filter, before)|
    ensures Wanted(rows, filter, before)[i] in rows && Asked(filter, before, Wanted(rows, filter, before)[i])
  {
    var head := if Asked(filter, before, rows[0]) then [rows[0]] else [];
    if i >= |head| { WantedIsListed(rows[1..], filter, before, i - |head|); }
  }

  lemma TailStaysNewestFirst(rows: seq<Row>)
    requires NewestFirst(rows) && rows != []
    ensures NewestFirst(rows[1..])
    ensures forall i :: 0 <= i < |rows[1..]| ==> Older(rows[1..][i], PositionOf(rows[0]))
  {
  }

  /** Rows at or above the position asked from are not wanted. */
  lemma NotAskedFromBelow(filter: Filter, first: Row, row: Row)
    requires first == row || Older(row, PositionOf(first))
    ensures !Asked(filter, Some(PositionOf(row)), first)
  {
  }

  /** Asking again from the position of a wanted row gives exactly the wanted rows after it. */
  lemma {:induction false} WantedAfter(rows: seq<Row>, filter: Filter, before: Option<Position>, i: nat)
    requires NewestFirst(rows) && i < |Wanted(rows, filter, before)|
    ensures Wanted(rows, filter, Some(PositionOf(Wanted(rows, filter, before)[i])))
      == Wanted(rows, filter, before)[i + 1..]
  {
    hide Asked, NewestFirst, Older;
    var row := Wanted(rows, filter, before)[i];
    var rest := rows[1..];
    TailStaysNewestFirst(rows);
    if !Asked(filter, before, rows[0]) {
      assert Wanted(rows, filter, before) == Wanted(rest, filter, before);
      WantedAfter(rest, filter, before, i);
      WantedIsListed(rest, filter, before, i);
    } else if i == 0 {
      assert Wanted(rows, filter, before) == [rows[0]] + Wanted(rest, filter, before);
      assert Wanted(rows, filter, before)[1..] == Wanted(rest, filter, before);
      OlderRowsAgree(rest, filter, before, row);
    } else {
      assert Wanted(rows, filter, before) == [rows[0]] + Wanted(rest, filter, before);
      assert Wanted(rows, filter, before)[i + 1..] == Wanted(rest, filter, before)[i..];
      WantedAfter(rest, filter, before, i - 1);
      WantedIsListed(rest, filter, before, i - 1);
    }
    NotAskedFromBelow(filter, rows[0], row);
  }

  /** Below a row that was itself asked for, both positions ask for the same rows. */
  lemma {:induction false} OlderRowsAgree(rows: seq<Row>, filter: Filter, before: Option<Position>, row: Row)
    requires forall i :: 0 <= i < |rows| ==> Older(rows[i], PositionOf(row))
    requires Asked(filter, before, row)
    ensures Wanted(rows, filter, Some(PositionOf(row))) == Wanted(rows, filter, before)
  {
    if rows != [] { OlderRowsAgree(rows[1..], filter, before, row); }
  }

  /** Rows appended while paging are newer than every row there was when paging started. */
  predicate OnlyNewer(rows: seq<Row>, before: Option<Position>, requests: seq<Request>) {
    && (forall r, i, j :: 0 <= r < |requests| && 0 <= i < |requests[r].newer| && 0 <= j < |rows| ==>
          Older(rows[j], PositionOf(requests[r].newer[i])))
    && (requests != [] && before.None? ==> requests[0].newer == [])
    && (before.Some? ==> exists j :: 0 <= j < |rows| && PositionOf(rows[j]) == before.value)
  }

  /**
   * Following cursors with any limits, while newer rows keep arriving, ends and returns every wanted row
   * that was there at the start once, in order, and nothing else.
   */
  lemma {:induction false} PagingIsLossless(
    rows: seq<Row>, filter: Filter, before: Option<Position>, requests: seq<Request>)
    requires NewestFirst(rows) && OnlyNewer(rows, before, requests)
    requires |requests| > |Wanted(rows, filter, before)|
    ensures Follow(rows, filter, before, requests) == Wanted(rows, filter, before)
    decreases |requests|
  {
    hide Wanted, OnlyNewer, NewestFirst, Asked, Older;
    var wanted := Wanted(rows, filter, before);
    var first := requests[0];
    NewerAreNotAsked(rows, before, requests);
    WantedSkipsNewer(first.newer, rows, filter, before);
    var page := Query(first.newer + rows, filter, before, first.limit);
    if page.next.Some? {
      var n := Bounded(first.limit);
      assert page.entries == wanted[..n];
      WantedAfter(rows, filter, before, n - 1);
      WantedIsListed(rows, filter, before, n - 1);
      NextRequestsOnlyNewer(rows, before, requests, wanted[n - 1]);
      PagingIsLossless(rows, filter, page.next, requests[1..]);
      assert wanted == wanted[..n] + wanted[n..];
    }
  }

  lemma NewerAreNotAsked(rows: seq<Row>, before: Option<Position>, requests: seq<Request>)
    requires requests != [] && OnlyNewer(rows, before, requests)
    ensures requests[0].newer == []
      || (before.Some? && forall i :: 0 <= i < |requests[0].newer| ==> !Older(requests[0].newer[i], before.value))
  {
  }

  lemma NextRequestsOnlyNewer(rows: seq<Row>, before: Option<Position>, requests: seq<Request>, row: Row)
    requires requests != [] && OnlyNewer(rows, before, requests) && row in rows
    ensures OnlyNewer(rows, Some(PositionOf(row)), requests[1..])
  {
    var j :| 0 <= j < |rows| && rows[j] == row;
    assert PositionOf(rows[j]) == PositionOf(row);
  }

  // ----- Manageable groups -----

  const GROUPS_PER_PAGE := 8

  datatype Group = Group(id: nat, present: bool)

  datatype GroupPage = GroupPage(groups: seq<Group>, nextAfter: Option<nat>)

  predicate Ascending(groups: seq<Group>) {
    forall i, j :: 0 <= i < j < |groups| ==> groups[i].id < groups[j].id
  }

  /** Active groups after an identity; administrators also see groups the bot has left. */
  predicate Offered(group: Group, after: nat, presentOnly: bool) {
    group.id > after && (presentOnly ==> group.present)
  }

  function Candidates(groups: seq<Group>, after: nat, presentOnly: bool): seq<Group> {
    if groups == [] then []
    else
      (if Offered(groups[0], after, presentOnly) then [groups[0]] else []) + Candidates(groups[1..], after, presentOnly)
  }

  function Manageable(candidates: seq<Group>, manageable: set<nat>): seq<Group> {
    if candidates == [] then []
    else
      Manageable(candidates[..|candidates| - 1], manageable)
      + if candidates[|candidates| - 1].id in manageable then [candidates[|candidates| - 1]] else []
  }

  function GroupPageAfter(groups: seq<Group>, after: nat, presentOnly: bool, manageable: set<nat>): GroupPage {
    var candidates := Take(Candidates(groups, after, presentOnly), GROUPS_PER_PAGE + 1);
    GroupPage(
      Manageable(Take(candidates, GROUPS_PER_PAGE), manageable),
      if |candidates| > GROUPS_PER_PAGE then Some(candidates[GROUPS_PER_PAGE - 1].id) else None)
  }

  method ListGroups(groups: seq<Group>, after: nat, presentOnly: bool, manageable: set<nat>) returns (page: GroupPage)
    ensures page == GroupPageAfter(groups, after, presentOnly, manageable)
  {
    var candidates := Take(Candidates(groups, after, presentOnly), GROUPS_PER_PAGE + 1);
    var firsts := Take(candidates, GROUPS_PER_PAGE);
    var found: seq<Group> := [];
    for n := 0 to |firsts|
      invariant found == Manageable(firsts[..n], manageable)
    {
      assert firsts[..n + 1][..n] == firsts[..n];
      if firsts[n].id in manageable { found := found + [firsts[n]]; }
    }
    assert firsts[..|firsts|] == firsts;
    var next := if |candidates| > GROUPS_PER_PAGE then Some(candidates[GROUPS_PER_PAGE - 1].id) else None;
    return GroupPage(found, next);
  }

  lemma {:induction false} CandidateIsListed(groups: seq<Group>, after: nat, presentOnly: bool, i: nat)
    requires i < |Candidates(groups, after, presentOnly)|
    ensures Candidates(groups, after, presentOnly)[i] in groups
    ensures Offered(Candidates(groups, after, presentOnly)[i], after, presentOnly)
  {
    hide Offered;
    var head := if Offered(groups[0], after, presentOnly) then [groups[0]] else [];
    if i >= |head| { CandidateIsListed(groups[1..], after, presentOnly, i - |head|); }
  }

  lemma TailStaysAscending(groups: seq<Group>)
    requires Ascending(groups) && groups != []
    ensures Ascending(groups[1..]) && forall group :: group in groups[1..] ==> groups[0].id < group.id
  {
  }

  /** Continuing after a candidate offers exactly the candidates after it. */
  lemma {:induction false} CandidatesAfter(groups: seq<Group>, after: nat, presentOnly: bool, i: nat)
    requires Ascending(groups) && i < |Candidates(groups, after, presentOnly)|
    ensures Candidates(groups, Candidates(groups, after, presentOnly)[i].id, presentOnly)
      == Candidates(groups, after, presentOnly)[i + 1..]
  {
    hide Offered, Ascending;
    var all := Candidates(groups, after, presentOnly);
    var rest := groups[1..];
    TailStaysAscending(groups);
    if !Offered(groups[0], after, presentOnly) {
      assert all == Candidates(rest, after, presentOnly);
      CandidatesAfter(rest, after, presentOnly, i);
      CandidateIsListed(rest, after, presentOnly, i);
    } else if i == 0 {
      assert all == [groups[0]] + Candidates(rest, after, presentOnly);
      assert all[1..] == Candidates(rest, after, presentOnly);
      LaterCandidatesAgree(rest, after, groups[0], presentOnly);
    } else {
      assert all == [groups[0]] + Candidates(rest, after, presentOnly);
      assert all[i + 1..] == Candidates(rest, after, presentOnly)[i..];
      CandidatesAfter(rest, after, presentOnly, i - 1);
      CandidateIsListed(rest, after, presentOnly, i - 1);
    }
    NotOfferedAgain(groups[0], all[i].id, presentOnly);
  }

  lemma NotOfferedAgain(group: Group, after: nat, presentOnly: bool)
    requires group.id <= after
    ensures !Offered(group, after, presentOnly)
  {
  }

  lemma {:induction false} LaterCandidatesAgree(groups: seq<Group>, after: nat, first: Group, presentOnly: bool)
    requires Offered(first, after, presentOnly) && forall group :: group in groups ==> first.id < group.id
    ensures Candidates(groups, first.id, presentOnly) == Candidates(groups, after, presentOnly)
  {
    if groups != [] { LaterCandidatesAgree(groups[1..], after, first, presentOnly); }
  }

  lemma {:induction false} ManageableSplits(candidates: seq<Group>, n: nat, manageable: set<nat>)
    requires n <= |candidates|
    ensures Manageable(candidates, manageable)
      == Manageable(candidates[..n], manageable) + Manageable(candidates[n..], manageable)
    decreases |candidates|
  {
    if n == |candidates| {
      assert candidates[..n] == candidates;
    } else {
      var last := |candidates| - 1;
      ManageableSplits(candidates[..last], n, manageable);
      assert candidates[..last][..n] == candidates[..n];
      assert candidates[..last][n..] == candidates[n..][..|candidates[n..]| - 1];
    }
  }

  /** Following group pages from an identity until one has no successor. */
  function FollowGroups(groups: seq<Group>, after: nat, presentOnly: bool, manageable: set<nat>, pages: nat): seq<Group>
    decreases pages
  {
    if pages == 0 then []
    else
      var page := GroupPageAfter(groups, after, presentOnly, manageable);
      if page.nextAfter.None? then page.groups
      else page.groups + FollowGroups(groups, page.nextAfter.value, presentOnly, manageable, pages - 1)
  }

  /**
   * Paging through groups visits every candidate once, in order: pages whose candidates are all filtered
   * out still lead on to the next one.
   */
  lemma {:induction false} GroupPagingIsLossless(
    groups: seq<Group>, after: nat, presentOnly: bool, manageable: set<nat>, pages: nat)
    requires Ascending(groups) && pages > |Candidates(groups, after, presentOnly)| / GROUPS_PER_PAGE
    ensures FollowGroups(groups, after, presentOnly, manageable, pages)
      == Manageable(Candidates(groups, after, presentOnly), manageable)
    decreases pages
  {
    hide Candidates, Manageable, Ascending;
    var all := Candidates(groups, after, presentOnly);
    if |all| > GROUPS_PER_PAGE {
      CandidatesAfter(groups, after, presentOnly, GROUPS_PER_PAGE - 1);
      ManageableSplits(all, GROUPS_PER_PAGE, manageable);
      GroupPagingIsLossless(groups, all[GROUPS_PER_PAGE - 1].id, presentOnly, manageable, pages - 1);
      assert Take(Take(all, GROUPS_PER_PAGE + 1), GROUPS_PER_PAGE) == all[..GROUPS_PER_PAGE];
    }
  }

  /** A page holds the limit asked for, between one and fifty, or all that is left; only a full page has a successor. */
  lemma PageHoldsExactly(rows: seq<Row>, filter: Filter, before: Option<Position>, limit: int)
    ensures var page := Query(rows, filter, before, limit); var wanted := Wanted(rows, filter, before);
      var size := if limit < 1 then 1 else if limit > 50 then 50 else limit;
      && |page.entries| == (if |wanted| < size then |wanted| else size)
      && page.entries == wanted[..|page.entries|]
      && (page.next.Some? <==> |wanted| >= size)
  {
  }

  /** The rows a query asks for: those that meet every filter given, bounds included, and lie before the cursor. */
  lemma {:induction false} WantedExactly(rows: seq<Row>, filter: Filter, before: Option<Position>, row: Row)
    ensures multiset(Wanted(rows, filter, before))[row] ==
      if (filter.targetType.Some? ==> filter.targetType.value == row.targetType)
         && (filter.action.Some? ==> filter.action.value == row.action)
         && (filter.since.Some? ==> filter.since.value <= row.at)
         && (filter.until.Some? ==> row.at <= filter.until.value)
         && (before.Some? ==>
               row.at < before.value.at || (row.at == before.value.at && row.id < before.value.id))
      then multiset(rows)[row] else 0
  {
    if rows != [] {
      WantedExactly(rows[1..], filter, before, row);
      assert rows == [rows[0]] + rows[1..];
    }
  }

  /** Groups after the given identity are offered; whoever may not administer the bot sees only those it is in. */
  lemma {:induction false} CandidatesExactly(groups: seq<Group>, after: nat, presentOnly: bool, group: Group)
    ensures multiset(Candidates(groups, after, presentOnly))[group] ==
      if after < group.id && (group.present || !presentOnly) then multiset(groups)[group] else 0
  {
    if groups != [] {
      CandidatesExactly(groups[1..], after, presentOnly, group);
      assert groups == [groups[0]] + groups[1..];
    }
  }

  /** A page of groups looks at eight candidates and names the last of them when there are more. */
  lemma {:induction false} GroupPageLooksAtEight(
    groups: seq<Group>, after: nat, presentOnly: bool, manageable: set<nat>)
    ensures var candidates := Candidates(groups, after, presentOnly);
      var page := GroupPageAfter(groups, after, presentOnly, manageable);
      && page.groups == Manageable(if |candidates| <= 8 then candidates else candidates[..8], manageable)
      && page.nextAfter == (if |candidates| <= 8 then None else Some(candidates[7].id))
  {
    var candidates := Candidates(groups, after, presentOnly);
    if |candidates| > 8 { assert candidates[..9][..8] == candidates[..8]; }
  }

  /** Of the candidates looked at, exactly the manageable ones are listed. */
  lemma {:induction false} ManageableExactly(candidates: seq<Group>, manageable: set<nat>, group: Group)
    ensures multiset(Manageable(candidates, manageable))[group] ==
      if group.id in manageable then multiset(candidates)[group] else 0
  {
    if candidates != [] {
      ManageableExactly(candidates[..|candidates| - 1], manageable, group);
      assert candidates == candidates[..|candidates| - 1] + [candidates[|candidates| - 1]];
    }
  }

  /** A cursor is read exactly when it ends in a bar and a number; the time stamp is whatever stands before. */
  lemma {:induction false} CursorsReadExactly(cursor: string)
    ensures ParseCursor(cursor).Some? <==>
      exists stamp, digits :: digits != "" && AllDigits(digits) && cursor == stamp + ['|'] + digits
  {
    if ParseCursor(cursor).Some? {
      var i := LastIndex(cursor, '|').value;
      assert cursor == cursor[..i] + ['|'] + cursor[i + 1..];
    }
    if stamp, digits :| digits != "" && AllDigits(digits) && cursor == stamp + ['|'] + digits {
      assert '|' !in digits;
      LastIndexIs(stamp, digits, '|');
      assert cursor[|stamp| + 1..] == digits;
    }
  }
}
