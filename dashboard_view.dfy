/** The logic of `client/src/pages/Dashboard.jsx`: the contest carousel, the
    rules text of the contest creation form, and the admin lists of groups and
    users that follow the server's answers. */
module DashboardView {
  import opened Wrappers
  import opened Seqs
  import opened Strings
  import opened Models
  import opened ClientLists

  // ---------------------------------------------------------------------
  // The carousel

  /** Whether the carousel interval is running: not for an empty contest list. */
  predicate CarouselRuns(n: nat) {
    n != 0
  }

  /** One interval tick: with both modals closed the index moves to the next
      contest, wrapping at the end; with a modal open it stays. */
  function CarouselTick(index: nat, n: nat, detailsOpen: bool, createOpen: bool): (r: nat)
    requires CarouselRuns(n)
    ensures r < n || (r == index && (detailsOpen || createOpen))
    ensures !detailsOpen && !createOpen && index + 1 < n ==> r == index + 1
    ensures !detailsOpen && !createOpen && index + 1 == n ==> r == 0
    ensures detailsOpen || createOpen ==> r == index
  {
    if !detailsOpen && !createOpen then (index + 1) % n else index
  }

  /** `k` ticks with the modals closed. */
  function CarouselAfter(index: nat, n: nat, k: nat): nat
    requires CarouselRuns(n)
  {
    if k == 0 then index else CarouselTick(CarouselAfter(index, n, k - 1), n, false, false)
  }

  /** The carousel never leaves the contest list. */
  lemma {:induction false} CarouselInRange(index: nat, n: nat, k: nat)
    requires CarouselRuns(n) && index < n
    ensures CarouselAfter(index, n, k) < n
  {
    if k > 0 {
      CarouselInRange(index, n, k - 1);
    }
  }

  /** Within one round the carousel counts up from `index` and wraps to 0
      once past the last contest. */
  lemma {:induction false} CarouselWithinRound(index: nat, n: nat, j: nat)
    requires CarouselRuns(n) && index < n && j <= n
    ensures CarouselAfter(index, n, j) == if index + j < n then index + j else index + j - n
  {
    if j > 0 {
      CarouselWithinRound(index, n, j - 1);
    }
  }

  /** Ticking `a` times and then `b` times is ticking `a + b` times. */
  lemma {:induction false} CarouselCompose(index: nat, n: nat, a: nat, b: nat)
    requires CarouselRuns(n)
    ensures CarouselAfter(index, n, a + b) == CarouselAfter(CarouselAfter(index, n, a), n, b)
  {
    if b > 0 {
      CarouselCompose(index, n, a, b - 1);
    }
  }

  /** A whole round of ticks comes back to the starting contest, so the
      carousel repeats with period `n`. */
  lemma FullRoundReturns(index: nat, n: nat, k: nat)
    requires CarouselRuns(n) && index < n
    ensures CarouselAfter(index, n, n) == index
    ensures CarouselAfter(index, n, k + n) == CarouselAfter(index, n, k)
  {
    CarouselWithinRound(index, n, n);
    CarouselCompose(index, n, k, n);
    CarouselInRange(index, n, k);
    CarouselWithinRound(CarouselAfter(index, n, k), n, n);
  }

  // ---------------------------------------------------------------------
  // The rules of a new contest

  /** `r => r.trim() !== ''`. */
  function NonBlank(): string -> bool {
    (r: string) => Trim(r) != ""
  }

  /** `rules.split('\n').filter(r => r.trim() !== '')`. */
  function ParseRules(text: string): (rules: seq<string>)
    ensures forall r :: r in rules <==> r in Split(text, '\n') && Trim(r) != ""
    ensures forall k :: 0 <= k < |rules| ==> '\n' !in rules[k]
  {
    var pieces := Split(text, '\n');
    var rules := Filter(pieces, NonBlank());
    assert forall k :: 0 <= k < |rules| ==> rules[k] in pieces;
    rules
  }

  /** Rules typed one per line come out as typed, in order and untrimmed,
      with the blank lines dropped. */
  lemma RulesKeepOrder(lines: seq<string>)
    requires |lines| >= 1
    requires forall k :: 0 <= k < |lines| ==> '\n' !in lines[k]
    ensures ParseRules(Join(lines, '\n')) == Filter(lines, NonBlank())
  {
    SplitJoin(lines, '\n');
  }

  /** Without blank lines every line is a rule. */
  lemma RulesWithoutBlankLines(lines: seq<string>)
    requires |lines| >= 1
    requires forall k :: 0 <= k < |lines| ==> '\n' !in lines[k] && Trim(lines[k]) != ""
    ensures ParseRules(Join(lines, '\n')) == lines
  {
    RulesKeepOrder(lines);
    FilterKeepsAll(lines, NonBlank());
  }

  // ---------------------------------------------------------------------
  // The admin lists

  /** `handleRestrict`: a successful request replaces the rows with that id
      by the group the server answered with; a failed one changes nothing. */
  function HandleRestrict(rows: seq<Row<Group>>, id: Id, status: int, answer: Group): (r: seq<Row<Group>>)
    ensures |r| == |rows|
    ensures Succeeded(status) ==> forall k :: 0 <= k < |rows| ==>
      r[k] == if rows[k].id == id then Row(id, answer) else rows[k]
    ensures !Succeeded(status) ==> r == rows
  {
    if Succeeded(status) then ReplaceWhere(rows, (g: Row<Group>) => g.id == id, Row(id, answer)) else rows
  }

  /** The server answers a restrict with the flipped group, so the list
      keeps mirroring the table, which now holds the flipped group. */
  lemma RestrictKeepsMirror(rows: seq<Row<Group>>, table: map<Id, Group>, id: Id)
    requires Mirrors(rows, table) && id in table
    ensures var flipped := table[id].(isRestricted := !table[id].isRestricted);
      Mirrors(HandleRestrict(rows, id, OK, flipped), table[id := flipped])
  {
  }

  /** The Delete button of the user list: shown for every account but an admin's. */
  function ShowUserDelete(a: Account): (shown: bool)
    ensures shown <==> a.role == UserRole
  {
    a.role != AdminRole
  }
}
