/**
 * The player's booking view: the list of available coach sessions, narrowed by
 * the filter selections, the sorted lists of dates and start times offered in
 * the pickers, and the booking step that marks one session booked.
 */
module Booking {
  import opened Wrappers
  import opened Text
  import opened Seqs
  import opened Ordering
  import opened Accounts
  import TimeDisplay

  /** A coach as the view lists it; the table allows a coach without a specialization. */
  datatype Coach = Coach(id: string, name: string, specialization: Option<string>)

  /** An available session as the view holds it, with its branch name joined in. */
  datatype TimeSlot = TimeSlot(
    id: string,
    coachId: string,
    branchId: string,
    sessionDate: string,
    startTime: string,
    endTime: string,
    status: string,
    branchName: string)

  /** A row of the `coach_sessions` table, with the name of its branch when the join finds one. */
  datatype SessionRow = SessionRow(
    id: string,
    coachId: string,
    playerId: Option<string>,
    branchId: string,
    sessionDate: string,
    startTime: string,
    endTime: string,
    status: string,
    branchName: Option<string>)

  /** The five filter selections; `None` or "" selects nothing. */
  datatype Filters = Filters(
    coach: Option<string>,
    branch: Option<string>,
    date: Option<string>,
    time: Option<string>,
    query: string)

  const NoFilters := Filters(None, None, None, None, "")

  const MsgLoginRequired := "You must be logged in to book a session"
  const MsgCannotVerify := "Unable to verify user account. Please contact support."
  const MsgCannotCreateUser := "Unable to create user profile. Please contact support."
  const MsgBookingFailed := "Failed to book session. Please try again."
  const UnknownBranch := "Unknown Branch"

  // ---------------------------------------------------------------------------
  // The filter

  predicate CoachOk(s: TimeSlot, f: Filters) {
    Filled(f.coach) ==> s.coachId == f.coach.value
  }

  predicate BranchOk(s: TimeSlot, f: Filters) {
    Filled(f.branch) ==> s.branchId == f.branch.value
  }

  predicate DateOk(s: TimeSlot, f: Filters) {
    Filled(f.date) ==> s.sessionDate == f.date.value
  }

  /** The start hour: `Number` of the text before the first ':'. */
  function HourOf(startTime: string): Option<nat> {
    ParseNumber(Split(startTime, ':')[0])
  }

  /** The hour is a number in [lo, hi); NaN compares false with everything. */
  predicate InHours(h: Option<nat>, lo: nat, hi: nat) {
    h.Some? && lo <= h.value < hi
  }

  /** A time selection: one of the three named buckets, or else an exact start time. */
  predicate TimeMatches(startTime: string, selected: string) {
    if selected == "morning" then InHours(HourOf(startTime), 6, 12)
    else if selected == "afternoon" then InHours(HourOf(startTime), 12, 17)
    else if selected == "evening" then InHours(HourOf(startTime), 17, 22)
    else startTime == selected
  }

  predicate TimeOk(s: TimeSlot, f: Filters) {
    Filled(f.time) ==> TimeMatches(s.startTime, f.time.value)
  }

  /** `coaches.find(c => c.id === id)`: the first coach with that id. */
  function FindCoach(coaches: seq<Coach>, id: string): (c: Option<Coach>)
    ensures c.None? <==> forall k :: 0 <= k < |coaches| ==> coaches[k].id != id
    ensures c.Some? ==> exists k :: 0 <= k < |coaches| && coaches[k] == c.value && c.value.id == id &&
                          forall j :: 0 <= j < k ==> coaches[j].id != id
  {
    if coaches == [] then None
    else if coaches[0].id == id then Some(coaches[0])
    else
      var r := FindCoach(coaches[1..], id);
      assert r.Some? ==> exists k :: 1 <= k < |coaches| && coaches[k] == r.value && r.value.id == id &&
                           forall j :: 0 <= j < k ==> coaches[j].id != id by {
        if r.Some? {
          var k :| 0 <= k < |coaches[1..]| && coaches[1..][k] == r.value && r.value.id == id &&
                   forall j :: 0 <= j < k ==> coaches[1..][j].id != id;
          assert coaches[k + 1] == r.value;
          assert forall j :: 1 <= j < k + 1 ==> coaches[j].id != id by {
            forall j | 1 <= j < k + 1 ensures coaches[j].id != id {
              assert coaches[j] == coaches[1..][j - 1];
            }
          }
        }
      }
      r
  }

  /**
   * The search test for an already lower-cased query: the coach's name or
   * specialization, or the branch name, contains it; with no such coach only
   * the branch name can match.
   */
  predicate SearchHit(s: TimeSlot, coaches: seq<Coach>, query: string): (hit: bool)
    ensures var c := FindCoach(coaches, s.coachId);
            hit <==> Contains(ToLower(s.branchName), query) ||
                     (c.Some? && (Contains(ToLower(c.value.name), query) ||
                                  (c.value.specialization.Some? &&
                                   Contains(ToLower(c.value.specialization.value), query))))
  {
    match FindCoach(coaches, s.coachId)
    case Some(c) =>
      Contains(ToLower(c.name), query) ||
      (c.specialization.Some? && Contains(ToLower(c.specialization.value), query)) ||
      Contains(ToLower(s.branchName), query)
    case None => Contains(ToLower(s.branchName), query)
  }

  /**
   * The search test throws: the slot's coach is listed, its name does not
   * contain the query, and it has no specialization to lower-case.
   */
  predicate SearchThrows(s: TimeSlot, coaches: seq<Coach>, query: string) {
    var c := FindCoach(coaches, s.coachId);
    c.Some? && !Contains(ToLower(c.value.name), query) && c.value.specialization.None?
  }

  predicate SearchOk(s: TimeSlot, f: Filters, coaches: seq<Coach>) {
    f.query != "" ==> SearchHit(s, coaches, ToLower(f.query))
  }

  /** The criteria applied before the search: coach, branch, date and time. */
  predicate PreSearch(s: TimeSlot, f: Filters) {
    CoachOk(s, f) && BranchOk(s, f) && DateOk(s, f) && TimeOk(s, f)
  }

  /** A slot passes the filter: every active criterion holds of it. */
  predicate Matches(s: TimeSlot, f: Filters, coaches: seq<Coach>) {
    PreSearch(s, f) && SearchOk(s, f, coaches)
  }

  /**
   * The filter effect throws: a search is active and some slot that passes
   * the other criteria makes the search test throw.
   */
  predicate SearchCrashes(timeSlots: seq<TimeSlot>, f: Filters, coaches: seq<Coach>) {
    f.query != "" && exists s :: s in timeSlots && PreSearch(s, f) && SearchThrows(s, coaches, ToLower(f.query))
  }

  /** The list the view shows: the slots that pass, in their original order. */
  function FilteredSlots(timeSlots: seq<TimeSlot>, f: Filters, coaches: seq<Coach>): seq<TimeSlot> {
    Select(timeSlots, (s: TimeSlot) => Matches(s, f, coaches))
  }

  /**
   * The filter effect: start from all slots and narrow them criterion by
   * criterion, each active criterion in turn. The search stage throws when
   * it meets a listed coach without a specialization whose name does not
   * match; `crashed` reports that, and `filtered` is then meaningless.
   */
  method FilterTimeSlots(timeSlots: seq<TimeSlot>, coaches: seq<Coach>, f: Filters)
    returns (filtered: seq<TimeSlot>, crashed: bool)
    ensures crashed <==> SearchCrashes(timeSlots, f, coaches)
    ensures !crashed ==> filtered == FilteredSlots(timeSlots, f, coaches)
  {
    ghost var byCoach := (s: TimeSlot) => CoachOk(s, f);
    ghost var byBranch := (s: TimeSlot) => CoachOk(s, f) && BranchOk(s, f);
    ghost var byDate := (s: TimeSlot) => CoachOk(s, f) && BranchOk(s, f) && DateOk(s, f);
    ghost var byTime := (s: TimeSlot) => PreSearch(s, f);
    ghost var byAll := (s: TimeSlot) => Matches(s, f, coaches);

    filtered, crashed := timeSlots, false;

    if Filled(f.coach) {
      var coach := f.coach.value;
      SelectSame(timeSlots, (s: TimeSlot) => s.coachId == coach, byCoach);
      filtered := Select(filtered, (s: TimeSlot) => s.coachId == coach);
    } else {
      SelectAll(timeSlots, byCoach);
    }
    assert filtered == Select(timeSlots, byCoach);

    if Filled(f.branch) {
      var branch := f.branch.value;
      SelectSelect(timeSlots, byCoach, (s: TimeSlot) => s.branchId == branch, byBranch);
      filtered := Select(filtered, (s: TimeSlot) => s.branchId == branch);
    } else {
      SelectSame(timeSlots, byCoach, byBranch);
    }
    assert filtered == Select(timeSlots, byBranch);

    if Filled(f.date) {
      var date := f.date.value;
      SelectSelect(timeSlots, byBranch, (s: TimeSlot) => s.sessionDate == date, byDate);
      filtered := Select(filtered, (s: TimeSlot) => s.sessionDate == date);
    } else {
      SelectSame(timeSlots, byBranch, byDate);
    }
    assert filtered == Select(timeSlots, byDate);

    if Filled(f.time) {
      var selected := f.time.value;
      SelectSelect(timeSlots, byDate, (s: TimeSlot) => TimeMatches(s.startTime, selected), byTime);
      filtered := NarrowByTime(filtered, selected);
    } else {
      SelectSame(timeSlots, byDate, byTime);
    }
    assert filtered == Select(timeSlots, byTime);

    if f.query != "" {
      var query := ToLower(f.query);
      SelectMembers(timeSlots, byTime);
      filtered, crashed := SearchStage(filtered, coaches, query);
      if crashed {
        return;
      }
      SelectSelect(timeSlots, byTime, (s: TimeSlot) => SearchHit(s, coaches, query), byAll);
    } else {
      SelectSame(timeSlots, byTime, byAll);
    }
    SelectSame(timeSlots, byAll, (s: TimeSlot) => Matches(s, f, coaches));
  }

  /** The search stage of the filter, `filtered.filter(...)`: it tests the slots in order and throws at the first one whose test throws. */
  method SearchStage(slots: seq<TimeSlot>, coaches: seq<Coach>, query: string)
    returns (kept: seq<TimeSlot>, crashed: bool)
    ensures crashed <==> exists s :: s in slots && SearchThrows(s, coaches, query)
    ensures !crashed ==> kept == Select(slots, (s: TimeSlot) => SearchHit(s, coaches, query))
  {
    ghost var hit := (s: TimeSlot) => SearchHit(s, coaches, query);
    kept, crashed := [], false;
    var i := 0;
    while i < |slots|
      invariant 0 <= i <= |slots|
      invariant forall j :: 0 <= j < i ==> !SearchThrows(slots[j], coaches, query)
      invariant kept == Select(slots[..i], hit)
    {
      if SearchThrows(slots[i], coaches, query) {
        crashed := true;
        return;
      }
      SelectAppend(slots[..i], slots[i], hit);
      assert slots[..i + 1] == slots[..i] + [slots[i]];
      if SearchHit(slots[i], coaches, query) {
        kept := kept + [slots[i]];
      }
      i := i + 1;
    }
    assert slots[..i] == slots;
  }

  /** The time stage of the filter: a bucket by start hour, or an exact start time. */
  method NarrowByTime(slots: seq<TimeSlot>, selected: string) returns (r: seq<TimeSlot>)
    ensures r == Select(slots, (s: TimeSlot) => TimeMatches(s.startTime, selected))
  {
    ghost var matching := (s: TimeSlot) => TimeMatches(s.startTime, selected);
    if selected == "morning" {
      r := Select(slots, (s: TimeSlot) => InHours(HourOf(s.startTime), 6, 12));
      SelectSame(slots, (s: TimeSlot) => InHours(HourOf(s.startTime), 6, 12), matching);
    } else if selected == "afternoon" {
      r := Select(slots, (s: TimeSlot) => InHours(HourOf(s.startTime), 12, 17));
      SelectSame(slots, (s: TimeSlot) => InHours(HourOf(s.startTime), 12, 17), matching);
    } else if selected == "evening" {
      r := Select(slots, (s: TimeSlot) => InHours(HourOf(s.startTime), 17, 22));
      SelectSame(slots, (s: TimeSlot) => InHours(HourOf(s.startTime), 17, 22), matching);
    } else {
      r := Select(slots, (s: TimeSlot) => s.startTime == selected);
      SelectSame(slots, (s: TimeSlot) => s.startTime == selected, matching);
    }
  }

  /**
   * The filtered list is an order-preserving subsequence of the slots; every
   * slot in it passes every active criterion, and every slot that passes is in it.
   */
  lemma FilteredIsMatchingSubsequence(timeSlots: seq<TimeSlot>, f: Filters, coaches: seq<Coach>)
    ensures Subsequence(FilteredSlots(timeSlots, f, coaches), timeSlots)
    ensures forall s :: s in FilteredSlots(timeSlots, f, coaches) <==> s in timeSlots && Matches(s, f, coaches)
  {
    SelectIsSubsequence(timeSlots, (s: TimeSlot) => Matches(s, f, coaches));
    SelectMembers(timeSlots, (s: TimeSlot) => Matches(s, f, coaches));
  }

  /** With no selection and an empty search, every slot is shown, in order. */
  lemma NoCriteriaKeepsAll(timeSlots: seq<TimeSlot>, f: Filters, coaches: seq<Coach>)
    requires !Filled(f.coach) && !Filled(f.branch) && !Filled(f.date) && !Filled(f.time)
    requires f.query == ""
    ensures FilteredSlots(timeSlots, f, coaches) == timeSlots
  {
    SelectAll(timeSlots, (s: TimeSlot) => Matches(s, f, coaches));
  }

  /**
   * The buckets by start hour: morning [6,12), afternoon [12,17), evening
   * [17,22); no bucket holds an hour from 22 to 5, and none overlap.
   */
  lemma TimeBuckets(startTime: string, h: nat)
    requires HourOf(startTime) == Some(h)
    ensures TimeMatches(startTime, "morning") <==> 6 <= h < 12
    ensures TimeMatches(startTime, "afternoon") <==> 12 <= h < 17
    ensures TimeMatches(startTime, "evening") <==> 17 <= h < 22
    ensures h >= 22 || h < 6 ==>
              !TimeMatches(startTime, "morning") && !TimeMatches(startTime, "afternoon") &&
              !TimeMatches(startTime, "evening")
  {
  }

  /** Any selection other than a bucket name keeps exactly the slots starting at that text. */
  lemma ExactTimeSelection(startTime: string, selected: string)
    requires selected != "morning" && selected != "afternoon" && selected != "evening"
    ensures TimeMatches(startTime, selected) <==> startTime == selected
  {
  }

  /** The hour field of "HH:MM..." is the value of HH. */
  lemma HourOfTime(startTime: string, hh: string, mm: string, rest: string)
    requires hh != [] && AllDigits(hh)
    requires ':' !in mm
    requires rest == [] || rest[0] == ':'
    requires startTime == hh + ":" + mm + rest
    ensures HourOf(startTime) == Some(DigitsValue(hh))
  {
    TimeDisplay.TimeFields(startTime, hh, mm, rest);
  }

  /** 06:00 and 11:59 are morning; 12:00 is afternoon and not morning, whatever the minutes. */
  lemma BucketBoundaries(mm: string, rest: string)
    requires ':' !in mm
    requires rest == [] || rest[0] == ':'
    ensures var t := "06:" + mm + rest;
            TimeMatches(t, "morning") && !TimeMatches(t, "afternoon") && !TimeMatches(t, "evening")
    ensures TimeMatches("11:" + mm + rest, "morning")
    ensures var t := "12:" + mm + rest;
            TimeMatches(t, "afternoon") && !TimeMatches(t, "morning")
  {
    assert "06:" + mm + rest == "06" + ":" + mm + rest;
    assert DigitsValue("06") == 6 by { assert "06"[..1] == "0"; }
    HourOfTime("06:" + mm + rest, "06", mm, rest);
    assert "11:" + mm + rest == "11" + ":" + mm + rest;
    assert DigitsValue("11") == 11 by { assert "11"[..1] == "1"; }
    HourOfTime("11:" + mm + rest, "11", mm, rest);
    assert "12:" + mm + rest == "12" + ":" + mm + rest;
    assert DigitsValue("12") == 12 by { assert "12"[..1] == "1"; }
    HourOfTime("12:" + mm + rest, "12", mm, rest);
  }

  /** The search ignores case: queries that lower-case alike keep the same slots. */
  lemma SearchIgnoresCase(s: TimeSlot, f: Filters, g: Filters, coaches: seq<Coach>)
    requires ToLower(f.query) == ToLower(g.query)
    ensures SearchOk(s, f, coaches) == SearchOk(s, g, coaches)
  {
    assert |f.query| == |ToLower(f.query)| == |g.query|;
  }

  /** Without a search, or when every listed coach has a specialization, the filter never throws. */
  lemma CrashNeedsSearchAndMissingSpecialization(timeSlots: seq<TimeSlot>, f: Filters, coaches: seq<Coach>)
    ensures f.query == "" ==> !SearchCrashes(timeSlots, f, coaches)
    ensures (forall k :: 0 <= k < |coaches| ==> coaches[k].specialization.Some?) ==>
              !SearchCrashes(timeSlots, f, coaches)
  {
  }

  /**
   * A slot that passes the other criteria, whose listed coach has no
   * specialization and a name without the query, makes the filter throw;
   * a coach whose name matches never does.
   */
  lemma NullSpecializationCrashes(timeSlots: seq<TimeSlot>, f: Filters, coaches: seq<Coach>,
                                  s: TimeSlot, c: Coach)
    requires s in timeSlots && PreSearch(s, f) && f.query != ""
    requires FindCoach(coaches, s.coachId) == Some(c)
    ensures c.specialization.None? && !Contains(ToLower(c.name), ToLower(f.query)) ==>
              SearchCrashes(timeSlots, f, coaches)
    ensures Contains(ToLower(c.name), ToLower(f.query)) ==>
              !SearchThrows(s, coaches, ToLower(f.query)) && SearchHit(s, coaches, ToLower(f.query))
  {
  }

  /** A slot whose coach is not listed can match the search only through its branch name. */
  lemma UnlistedCoachSearchesBranchOnly(s: TimeSlot, coaches: seq<Coach>, query: string)
    requires forall k :: 0 <= k < |coaches| ==> coaches[k].id != s.coachId
    ensures SearchHit(s, coaches, query) <==> Contains(ToLower(s.branchName), query)
  {
  }

  // ---------------------------------------------------------------------------
  // Date and time pickers

  /** `getUniqueDates`: the session dates, each once, in sorted order. */
  method GetUniqueDates(timeSlots: seq<TimeSlot>) returns (dates: seq<string>)
    ensures StrictlySorted(dates)
    ensures forall d :: d in dates <==> exists k :: 0 <= k < |timeSlots| && timeSlots[k].sessionDate == d
  {
    var all := seq(|timeSlots|, k requires 0 <= k < |timeSlots| => timeSlots[k].sessionDate);
    dates := UniqueSorted(all);
    forall d ensures d in all <==> exists k :: 0 <= k < |timeSlots| && timeSlots[k].sessionDate == d {
      if d in all {
        var k :| 0 <= k < |all| && all[k] == d;
        assert timeSlots[k].sessionDate == d;
      }
      if exists k :: 0 <= k < |timeSlots| && timeSlots[k].sessionDate == d {
        var k :| 0 <= k < |timeSlots| && timeSlots[k].sessionDate == d;
        assert all[k] == d;
      }
    }
  }

  /** `getUniqueTimes`: the start times, each once, in sorted order. */
  method GetUniqueTimes(timeSlots: seq<TimeSlot>) returns (times: seq<string>)
    ensures StrictlySorted(times)
    ensures forall t :: t in times <==> exists k :: 0 <= k < |timeSlots| && timeSlots[k].startTime == t
  {
    var all := seq(|timeSlots|, k requires 0 <= k < |timeSlots| => timeSlots[k].startTime);
    times := UniqueSorted(all);
    forall t ensures t in all <==> exists k :: 0 <= k < |timeSlots| && timeSlots[k].startTime == t {
      if t in all {
        var k :| 0 <= k < |all| && all[k] == t;
        assert timeSlots[k].startTime == t;
      }
      if exists k :: 0 <= k < |timeSlots| && timeSlots[k].startTime == t {
        var k :| 0 <= k < |timeSlots| && timeSlots[k].startTime == t;
        assert all[k] == t;
      }
    }
  }

  // ---------------------------------------------------------------------------
  // Booking

  /** The update `status = 'booked', player_id = player` on every row with that id. */
  function MarkBooked(rows: seq<SessionRow>, slotId: string, player: string): (r: seq<SessionRow>)
    ensures |r| == |rows|
    ensures forall i :: 0 <= i < |rows| && rows[i].id == slotId ==>
              r[i] == rows[i].(status := "booked", playerId := Some(player))
    ensures forall i :: 0 <= i < |rows| && rows[i].id != slotId ==> r[i] == rows[i]
  {
    seq(|rows|, i requires 0 <= i < |rows| =>
      if rows[i].id == slotId then rows[i].(status := "booked", playerId := Some(player)) else rows[i])
  }

  /** The view's copy of a row, with "Unknown Branch" when the join gave no branch name or an empty one. */
  function ToTimeSlot(r: SessionRow): (t: TimeSlot)
    ensures t.id == r.id && t.coachId == r.coachId && t.branchId == r.branchId
    ensures t.sessionDate == r.sessionDate && t.startTime == r.startTime && t.endTime == r.endTime
    ensures t.status == r.status
    ensures t.branchName != ""
    ensures Filled(r.branchName) ==> t.branchName == r.branchName.value
    ensures !Filled(r.branchName) ==> t.branchName == UnknownBranch
  {
    TimeSlot(r.id, r.coachId, r.branchId, r.sessionDate, r.startTime, r.endTime, r.status,
             if Filled(r.branchName) then r.branchName.value else UnknownBranch)
  }

  /** The re-fetch: the rows whose status is "available", as the view keeps them. */
  function AvailableSlots(rows: seq<SessionRow>): (slots: seq<TimeSlot>)
    ensures forall k :: 0 <= k < |slots| ==> slots[k].status == "available"
    ensures |slots| == |Select(rows, (r: SessionRow) => r.status == "available")|
    ensures forall k :: 0 <= k < |slots| ==>
              slots[k] == ToTimeSlot(Select(rows, (r: SessionRow) => r.status == "available")[k])
  {
    var open := Select(rows, (r: SessionRow) => r.status == "available");
    SelectMembers(rows, (r: SessionRow) => r.status == "available");
    assert forall k :: 0 <= k < |open| ==> open[k] in open;
    seq(|open|, k requires 0 <= k < |open| => ToTimeSlot(open[k]))
  }

  /** The row written for a user who has none yet. */
  function NewUserRow(user: AuthUser): UserRow {
    UserRow(user.id, PlayerName(user), user.email, None, None)
  }

  /** The name for a new row: the metadata name, else the e-mail's local part, else "Player". */
  function PlayerName(user: AuthUser): (name: string)
    ensures name != ""
    ensures Filled(user.metadataFullName) ==> name == user.metadataFullName.value
    ensures !Filled(user.metadataFullName) && user.email.Some? && Split(user.email.value, '@')[0] != "" ==>
              name == Split(user.email.value, '@')[0]
    ensures !Filled(user.metadataFullName) && (user.email.None? || Split(user.email.value, '@')[0] == "") ==>
              name == "Player"
  {
    if Filled(user.metadataFullName) then user.metadataFullName.value
    else if user.email.Some? && Split(user.email.value, '@')[0] != "" then Split(user.email.value, '@')[0]
    else "Player"
  }

  /** Without a metadata name, an address "local@domain" gives the name "local". */
  lemma PlayerNameFromEmail(user: AuthUser, local: string, domain: string)
    requires !Filled(user.metadataFullName)
    requires local != "" && '@' !in local
    requires user.email == Some(local + "@" + domain)
    ensures PlayerName(user) == local
  {
    assert local + "@" + domain == local + ['@'] + domain;
    SplitAtSeparator(local, domain, '@');
  }

  /** Which database calls fail during one booking (each failure is reported and stops the step). */
  datatype BookingFaults = BookingFaults(
    lookupFails: bool,
    insertFails: bool,
    updateFails: bool,
    refetchFails: bool)

  /** What one booking does: the message, the two tables after it, and what the view takes over. */
  datatype BookingOutcome = BookingOutcome(
    error: Option<string>,
    sessions: seq<SessionRow>,
    users: map<string, UserRow>,
    refreshed: Option<seq<TimeSlot>>,
    successShown: bool,
    filtersReset: bool)

  /** `bookSession` as a function of the signed-in user, the tables and the faults. */
  function BookingStep(slotId: string, user: Option<AuthUser>, sessions: seq<SessionRow>,
                       users: map<string, UserRow>, faults: BookingFaults): (o: BookingOutcome)
    ensures |o.sessions| == |sessions|
    ensures o.error.None? <==> o.filtersReset
    ensures o.error.None? ==> o.successShown && o.refreshed.Some?
    ensures o.successShown ==> user.Some? && o.sessions == MarkBooked(sessions, slotId, user.value.id)
    ensures !o.successShown ==> o.sessions == sessions
    ensures forall id :: id in users ==> id in o.users && o.users[id] == users[id]
  {
    if user.None? then BookingOutcome(Some(MsgLoginRequired), sessions, users, None, false, false)
    else if faults.lookupFails then BookingOutcome(Some(MsgCannotVerify), sessions, users, None, false, false)
    else
      var u := user.value;
      var missing := u.id !in users;
      if missing && faults.insertFails then
        BookingOutcome(Some(MsgCannotCreateUser), sessions, users, None, false, false)
      else
        var users' := if missing then users[u.id := NewUserRow(u)] else users;
        WriteBooking(slotId, u.id, sessions, users', faults)
  }

  /** The part of `bookSession` after the player's row exists: the update, then the re-fetch. */
  function WriteBooking(slotId: string, player: string, sessions: seq<SessionRow>,
                        users: map<string, UserRow>, faults: BookingFaults): (o: BookingOutcome)
    ensures o.users == users
    ensures o.successShown <==> !faults.updateFails
    ensures o.sessions == (if faults.updateFails then sessions else MarkBooked(sessions, slotId, player))
    ensures o.error.None? <==> !faults.updateFails && !faults.refetchFails
    ensures o.refreshed.Some? <==> o.error.None?
    ensures o.refreshed.Some? ==> o.refreshed.value == AvailableSlots(o.sessions)
  {
    if faults.updateFails then
      BookingOutcome(Some(MsgBookingFailed), sessions, users, None, false, false)
    else
      var sessions' := MarkBooked(sessions, slotId, player);
      if faults.refetchFails then
        BookingOutcome(Some(MsgBookingFailed), sessions', users, None, true, false)
      else
        BookingOutcome(None, sessions', users, Some(AvailableSlots(sessions')), true, true)
  }

  /** With nobody signed in the booking reports an error and writes nothing. */
  lemma NoUserWritesNothing(slotId: string, sessions: seq<SessionRow>, users: map<string, UserRow>,
                            faults: BookingFaults)
    ensures var o := BookingStep(slotId, None, sessions, users, faults);
            o.error == Some(MsgLoginRequired) && o.sessions == sessions && o.users == users &&
            o.refreshed.None? && !o.successShown && !o.filtersReset
  {
  }

  /**
   * A booking that meets no fault: every row with that id is booked for the
   * user whatever its status was, every other row is unchanged, the user has
   * a row, the filters are reset, and the refreshed list no longer offers it.
   */
  lemma SuccessfulBooking(slotId: string, user: AuthUser, sessions: seq<SessionRow>,
                          users: map<string, UserRow>, faults: BookingFaults)
    requires !faults.lookupFails && !faults.insertFails && !faults.updateFails && !faults.refetchFails
    ensures var o := BookingStep(slotId, Some(user), sessions, users, faults);
            && o.error.None? && o.successShown && o.filtersReset
            && |o.sessions| == |sessions|
            && (forall i :: 0 <= i < |sessions| && sessions[i].id == slotId ==>
                  o.sessions[i] == sessions[i].(status := "booked", playerId := Some(user.id)))
            && (forall i :: 0 <= i < |sessions| && sessions[i].id != slotId ==> o.sessions[i] == sessions[i])
            && user.id in o.users
            && (user.id !in users ==> o.users[user.id] == NewUserRow(user))
            && o.refreshed.Some?
            && (forall k :: 0 <= k < |o.refreshed.value| ==> o.refreshed.value[k].id != slotId)
  {
    var booked := MarkBooked(sessions, slotId, user.id);
    var open := Select(booked, (r: SessionRow) => r.status == "available");
    SelectMembers(booked, (r: SessionRow) => r.status == "available");
    forall k | 0 <= k < |open| ensures open[k].id != slotId {
      assert open[k] in booked;
    }
  }

  /** A failed user-row insert stops the booking before the session table is touched. */
  lemma FailedUserInsertBooksNothing(slotId: string, user: AuthUser, sessions: seq<SessionRow>,
                                     users: map<string, UserRow>, faults: BookingFaults)
    requires !faults.lookupFails && faults.insertFails && user.id !in users
    ensures var o := BookingStep(slotId, Some(user), sessions, users, faults);
            o.error == Some(MsgCannotCreateUser) && o.sessions == sessions && o.users == users
  {
  }

  /** The `users` and `coach_sessions` tables the booking writes to. */
  class Database {
    var sessions: seq<SessionRow>
    var users: map<string, UserRow>

    constructor (sessions: seq<SessionRow>, users: map<string, UserRow>)
      ensures this.sessions == sessions && this.users == users
    {
      this.sessions := sessions;
      this.users := users;
    }
  }

  /** The booking view's state. */
  class BookingView {
    var coaches: seq<Coach>
    var timeSlots: seq<TimeSlot>
    var filteredTimeSlots: seq<TimeSlot>
    var loading: bool
    var selectedCoach: Option<string>
    var selectedBranch: Option<string>
    var selectedDate: Option<string>
    var selectedTime: Option<string>
    var searchQuery: string
    var bookingSuccess: bool
    var bookingError: Option<string>

    function CurrentFilters(): Filters
      reads this
    {
      Filters(selectedCoach, selectedBranch, selectedDate, selectedTime, searchQuery)
    }

    /** The initial state, before the first fetch. */
    constructor ()
      ensures coaches == [] && timeSlots == [] && filteredTimeSlots == []
      ensures loading && CurrentFilters() == NoFilters
      ensures !bookingSuccess && bookingError.None?
    {
      coaches, timeSlots, filteredTimeSlots := [], [], [];
      loading := true;
      selectedCoach, selectedBranch, selectedDate, selectedTime := None, None, None, None;
      searchQuery := "";
      bookingSuccess, bookingError := false, None;
    }

    /**
     * The filter effect, run whenever the slots, the coaches or a selection
     * changes; when it throws, the shown list is left as it was.
     */
    method RefreshFiltered() returns (crashed: bool)
      modifies this`filteredTimeSlots
      ensures crashed <==> SearchCrashes(timeSlots, CurrentFilters(), coaches)
      ensures filteredTimeSlots == (if crashed then old(filteredTimeSlots)
                                    else FilteredSlots(timeSlots, CurrentFilters(), coaches))
    {
      var filtered;
      filtered, crashed := FilterTimeSlots(timeSlots, coaches, CurrentFilters());
      if !crashed {
        filteredTimeSlots := filtered;
      }
    }

    /**
     * `bookSession`: report, write and refresh as `BookingStep` says; `loading`
     * ends false on every path (the `finally` block).
     */
    method BookSession(slotId: string, user: Option<AuthUser>, db: Database, faults: BookingFaults)
      modifies this`loading, this`bookingError, this`bookingSuccess, this`timeSlots
      modifies this`selectedCoach, this`selectedBranch, this`selectedDate, this`selectedTime
      modifies this`searchQuery, db
      ensures var o := BookingStep(slotId, user, old(db.sessions), old(db.users), faults);
              && bookingError == o.error
              && db.sessions == o.sessions && db.users == o.users
              && timeSlots == (if o.refreshed.Some? then o.refreshed.value else old(timeSlots))
              && bookingSuccess == (o.successShown || old(bookingSuccess))
              && CurrentFilters() == (if o.filtersReset then NoFilters else old(CurrentFilters()))
      ensures !loading
    {
      loading := true;
      bookingError := None;

      if user.None? {
        bookingError := Some(MsgLoginRequired);
      } else if faults.lookupFails {
        bookingError := Some(MsgCannotVerify);
      } else if user.value.id !in db.users && faults.insertFails {
        bookingError := Some(MsgCannotCreateUser);
      } else {
        var u := user.value;
        if u.id !in db.users {
          db.users := db.users[u.id := NewUserRow(u)];
        }
        SaveBooking(slotId, u.id, db, faults);
      }
      loading := false;
    }

    /** The update and the re-fetch, once the player's row exists. */
    method SaveBooking(slotId: string, player: string, db: Database, faults: BookingFaults)
      modifies this`bookingError, this`bookingSuccess, this`timeSlots
      modifies this`selectedCoach, this`selectedBranch, this`selectedDate, this`selectedTime
      modifies this`searchQuery, db`sessions
      ensures var o := WriteBooking(slotId, player, old(db.sessions), db.users, faults);
              && bookingError == (if o.error.Some? then o.error else old(bookingError))
              && db.sessions == o.sessions
              && timeSlots == (if o.refreshed.Some? then o.refreshed.value else old(timeSlots))
              && bookingSuccess == (o.successShown || old(bookingSuccess))
              && CurrentFilters() == (if o.filtersReset then NoFilters else old(CurrentFilters()))
    {
      if faults.updateFails {
        bookingError := Some(MsgBookingFailed);
        return;
      }
      db.sessions := MarkBooked(db.sessions, slotId, player);
      bookingSuccess := true;

      if faults.refetchFails {
        bookingError := Some(MsgBookingFailed);
        return;
      }
      timeSlots := AvailableSlots(db.sessions);

      selectedCoach := None;
      selectedBranch := None;
      selectedDate := None;
      selectedTime := None;
      searchQuery := "";
    }
  }
}
