/** The employee-handle backfill plan.
    Models backend/relay/persistence/employee_handle_backfill.py. */
module HandlePlan {
  import opened Wrappers
  import opened Text
  import opened Slugs

  datatype Employee = Employee(id: string, displayName: Option<string>)

  datatype Source = Username | DisplayName | IdPrefix

  datatype Row = Row(id: string, displayName: Option<string>, handle: string, source: Source, suffixed: bool)

  // ----- the suffix search

  function WithSuffix(candidate: string, suffix: nat): string { candidate + "-" + Decimal(suffix) }

  lemma SuffixesDiffer(candidate: string, j: nat, k: nat)
    requires WithSuffix(candidate, j) == WithSuffix(candidate, k)
    ensures j == k
  {
    assert WithSuffix(candidate, j)[|candidate| + 1..] == Decimal(j);
    assert WithSuffix(candidate, k)[|candidate| + 1..] == Decimal(k);
    DecimalInjective(j, k);
  }

  /** The names taken from this suffix on. */
  ghost function TakenFrom(candidate: string, taken: set<string>, suffix: nat): set<string> {
    set h | h in taken && exists k :: k >= suffix && h == WithSuffix(candidate, k)
  }

  lemma TakenFromShrinks(candidate: string, taken: set<string>, suffix: nat)
    requires WithSuffix(candidate, suffix) in taken
    ensures TakenFrom(candidate, taken, suffix + 1) < TakenFrom(candidate, taken, suffix)
    ensures |TakenFrom(candidate, taken, suffix + 1)| == |TakenFrom(candidate, taken, suffix)| - 1
  {
    var here := WithSuffix(candidate, suffix);
    var now, later := TakenFrom(candidate, taken, suffix), TakenFrom(candidate, taken, suffix + 1);
    if here in later {
      var k :| k >= suffix + 1 && here == WithSuffix(candidate, k);
      SuffixesDiffer(candidate, suffix, k);
    }
    assert here in now;
    forall h | h in now && h != here
      ensures h in later
    {
      var k :| k >= suffix && h == WithSuffix(candidate, k);
      assert k >= suffix + 1;
    }
    assert later == now - {here};
  }

  /** The least suffix, from this one up, whose name is free. */
  function FreeSuffix(candidate: string, taken: set<string>, suffix: nat): nat
    decreases TakenFrom(candidate, taken, suffix)
  {
    if WithSuffix(candidate, suffix) !in taken then suffix
    else
      TakenFromShrinks(candidate, taken, suffix);
      FreeSuffix(candidate, taken, suffix + 1)
  }

  function HandleFor(candidate: string, taken: set<string>): string {
    if candidate !in taken then candidate else WithSuffix(candidate, FreeSuffix(candidate, taken, 2))
  }

  lemma {:induction false} FreeSuffixIsLeast(candidate: string, taken: set<string>, suffix: nat)
    ensures
      var k := FreeSuffix(candidate, taken, suffix);
      && suffix <= k <= suffix + |TakenFrom(candidate, taken, suffix)|
      && WithSuffix(candidate, k) !in taken
      && forall j :: suffix <= j < k ==> WithSuffix(candidate, j) in taken
    decreases TakenFrom(candidate, taken, suffix)
  {
    if WithSuffix(candidate, suffix) in taken {
      TakenFromShrinks(candidate, taken, suffix);
      FreeSuffixIsLeast(candidate, taken, suffix + 1);
    }
  }

  /** A handle is free, is the plain candidate whenever that is free, and otherwise carries the
      least free suffix from 2 up, found within |taken| + 1 tries. */
  lemma HandleIsLeastFree(candidate: string, taken: set<string>)
    ensures HandleFor(candidate, taken) !in taken
    ensures candidate !in taken ==> HandleFor(candidate, taken) == candidate
    ensures candidate in taken ==>
      exists k :: 2 <= k <= |taken| + 1 && HandleFor(candidate, taken) == WithSuffix(candidate, k)
        && forall j :: 2 <= j < k ==> WithSuffix(candidate, j) in taken
  {
    if candidate in taken {
      FreeSuffixIsLeast(candidate, taken, 2);
      var suffixed := TakenFrom(candidate, taken, 2);
      assert candidate !in suffixed by {
        assert forall k :: |WithSuffix(candidate, k)| > |candidate|;
      }
      CountWithin(suffixed, taken - {candidate});
      var k := FreeSuffix(candidate, taken, 2);
      assert k <= |taken| + 1;
    }
  }

  lemma {:induction false} CountWithin<T>(a: set<T>, b: set<T>)
    requires a <= b
    ensures |a| <= |b|
  {
    if a != {} {
      var x :| x in a;
      CountWithin(a - {x}, b - {x});
    }
  }

  // ----- the plan

  /** The plain handle an employee asks for, and where it comes from. */
  type Choice = Employee -> (string, Source)

  function CandidateOf(lower: char -> char, usernames: map<string, string>): Choice {
    e => Candidate(lower, e, usernames)
  }

  function Candidate(lower: char -> char, e: Employee, usernames: map<string, string>): (string, Source) {
    var usernameSlug := Slugify(lower, if e.id in usernames then Some(usernames[e.id]) else None);
    var displaySlug := Slugify(lower, e.displayName);
    if usernameSlug != "" then (usernameSlug, Username)
    else if displaySlug != "" then (displaySlug, DisplayName)
    else (if |e.id| <= 8 then e.id else e.id[..8], IdPrefix)
  }

  function RowFor(choose: Choice, e: Employee, taken: set<string>): Row {
    var (candidate, source) := choose(e);
    var handle := HandleFor(candidate, taken);
    Row(e.id, e.displayName, handle, source, handle != candidate)
  }

  function Plan(choose: Choice, employees: seq<Employee>, taken: set<string>): seq<Row> {
    if employees == [] then []
    else
      var row := RowFor(choose, employees[0], taken);
      [row] + Plan(choose, employees[1..], taken + {row.handle})
  }

  function Handles(plan: seq<Row>): set<string> { set i | 0 <= i < |plan| :: plan[i].handle }

  /** The suffix loop. */
  method ChooseHandle(candidate: string, taken: set<string>) returns (handle: string)
    ensures handle == HandleFor(candidate, taken)
  {
    handle := candidate;
    var suffix := 2;
    while handle in taken
      invariant suffix >= 2
      invariant handle == if suffix == 2 then candidate else WithSuffix(candidate, suffix - 1)
      invariant HandleFor(candidate, taken) ==
        if handle !in taken then handle else WithSuffix(candidate, FreeSuffix(candidate, taken, suffix))
      decreases handle == candidate, TakenFrom(candidate, taken, suffix - 1)
    {
      if suffix > 2 {
        TakenFromShrinks(candidate, taken, suffix - 1);
      }
      assert |WithSuffix(candidate, suffix)| > |candidate|;
      handle := WithSuffix(candidate, suffix);
      suffix := suffix + 1;
    }
  }

  lemma PlanStep(
    choose: Choice, employees: seq<Employee>, taken: set<string>, i: nat
  )
    requires i < |employees|
    ensures
      var row := RowFor(choose, employees[i], taken);
      Plan(choose, employees[i..], taken)
      == [row] + Plan(choose, employees[i + 1..], taken + {row.handle})
  {
    assert employees[i..][1..] == employees[i + 1..];
  }

  /** The planning loop. */
  method PlanHandles(choose: Choice, employees: seq<Employee>)
    returns (plan: seq<Row>)
    ensures plan == Plan(choose, employees, {})
  {
    var taken: set<string> := {};
    plan := [];
    ghost var whole := Plan(choose, employees, {});
    for i := 0 to |employees|
      invariant whole == plan + Plan(choose, employees[i..], taken)
    {
      PlanStep(choose, employees, taken, i);
      var employee := employees[i];
      var (candidate, source) := choose(employee);
      var handle := ChooseHandle(candidate, taken);
      taken := taken + {handle};
      plan := plan + [Row(employee.id, employee.displayName, handle, source, handle != candidate)];
    }
  }

  /** Nobody is dropped, nobody is reordered, and no two rows share a handle or take a handle
      already taken. */
  lemma {:induction false} PlanIsOneToOne(
    choose: Choice, employees: seq<Employee>, taken: set<string>
  )
    ensures
      var plan := Plan(choose, employees, taken);
      && |plan| == |employees|
      && (forall i :: 0 <= i < |plan| ==> plan[i].id == employees[i].id && plan[i].handle !in taken)
      && (forall i, j :: 0 <= i < j < |plan| ==> plan[i].handle != plan[j].handle)
    decreases |employees|
  {
    if employees != [] {
      var row := RowFor(choose, employees[0], taken);
      HandleIsLeastFree(choose(employees[0]).0, taken);
      PlanIsOneToOne(choose, employees[1..], taken + {row.handle});
    }
  }

  /** Planning fewer employees gives the first rows of the same plan, and each row is planned
      against the handles of the rows before it. */
  lemma {:induction false} PlanningAPrefix(
    choose: Choice, employees: seq<Employee>, taken: set<string>, k: nat
  )
    requires k <= |employees|
    ensures
      var plan := Plan(choose, employees, taken);
      && |plan| == |employees|
      && Plan(choose, employees[..k], taken) == plan[..k]
      && (k < |employees| ==> plan[k] == RowFor(choose, employees[k], taken + Handles(plan[..k])))
    decreases |employees|
  {
    if employees == [] {
    } else if k == 0 {
      PlanIsOneToOne(choose, employees, taken);
      assert taken + Handles([]) == taken;
    } else {
      var row := RowFor(choose, employees[0], taken);
      assert employees[..k][1..] == employees[1..][..k - 1];
      PlanningAPrefix(choose, employees[1..], taken + {row.handle}, k - 1);
      var plan := Plan(choose, employees, taken);
      assert plan[..k] == [row] + plan[1..][..k - 1];
      HandlesOfMore(row, plan[1..][..k - 1]);
      assert taken + {row.handle} + Handles(plan[1..][..k - 1]) == taken + Handles(plan[..k]);
    }
  }

  lemma HandlesOfMore(row: Row, plan: seq<Row>)
    ensures Handles([row] + plan) == {row.handle} + Handles(plan)
  {
    var longer := [row] + plan;
    assert longer[0] == row && longer[1..] == plan;
    forall h | h in Handles(plan)
      ensures h in Handles(longer)
    {
      var i :| 0 <= i < |plan| && plan[i].handle == h;
      assert longer[i + 1].handle == h;
    }
  }

  // ----- the plan of the migration

  /** The handle is the plain name unless an earlier row has that, and else the first of name-2,
      name-3 and so on that no earlier row has. */
  ghost predicate FirstFree(name: string, earlier: set<string>, handle: string) {
    if name !in earlier then handle == name
    else exists k: nat :: k >= 2 && handle == WithSuffix(name, k) && handle !in earlier
           && forall j :: 2 <= j < k ==> WithSuffix(name, j) in earlier
  }

  /** From what the employees are called: nobody is dropped or reordered, no two share a handle, and
      each is named by the slug of the user name, else of the display name, else by the first eight
      characters of the id; the source says which. */
  method PlanEmployeeHandles(lower: char -> char, usernames: map<string, string>, employees: seq<Employee>)
    returns (plan: seq<Row>)
    ensures |plan| == |employees|
    ensures forall i, j :: 0 <= i < j < |plan| ==> plan[i].handle != plan[j].handle
    ensures forall i :: 0 <= i < |plan| ==> Named(lower, usernames, employees[i], plan[i], Handles(plan[..i]))
  {
    var choose := CandidateOf(lower, usernames);
    plan := PlanHandles(choose, employees);
    PlanIsOneToOne(choose, employees, {});
    forall i | 0 <= i < |plan|
      ensures Named(lower, usernames, employees[i], plan[i], Handles(plan[..i]))
    {
      PlanningAPrefix(choose, employees, {}, i);
      assert {} + Handles(plan[..i]) == Handles(plan[..i]);
      RowIsNamed(lower, usernames, employees[i], Handles(plan[..i]));
    }
  }

  /** The row of an employee, given the handles of the rows before it. */
  ghost predicate Named(
    lower: char -> char, usernames: map<string, string>, e: Employee, row: Row, earlier: set<string>
  ) {
    var login := Slugify(lower, if e.id in usernames then Some(usernames[e.id]) else None);
    var display := Slugify(lower, e.displayName);
    && row.id == e.id && row.displayName == e.displayName
    && (row.source == Username <==> login != "")
    && (row.source == DisplayName <==> login == "" && display != "")
    && (row.source == IdPrefix <==> login == "" && display == "")
    && (row.source == Username ==> FirstFree(login, earlier, row.handle) && (row.suffixed <==> login in earlier))
    && (row.source == DisplayName ==>
          FirstFree(display, earlier, row.handle) && (row.suffixed <==> display in earlier))
    && (row.source == IdPrefix ==>
          exists name ::
            && name <= e.id && (|name| == 8 || (|name| < 8 && name == e.id))
            && FirstFree(name, earlier, row.handle) && (row.suffixed <==> name in earlier))
  }

  lemma HandleIsFirstFree(candidate: string, taken: set<string>)
    ensures FirstFree(candidate, taken, HandleFor(candidate, taken))
    ensures HandleFor(candidate, taken) != candidate <==> candidate in taken
  {
    HandleIsLeastFree(candidate, taken);
  }

  lemma RowIsNamed(lower: char -> char, usernames: map<string, string>, e: Employee, earlier: set<string>)
    ensures Named(lower, usernames, e, RowFor(CandidateOf(lower, usernames), e, earlier), earlier)
  {
    var (candidate, source) := Candidate(lower, e, usernames);
    HandleIsFirstFree(candidate, earlier);
    if source == IdPrefix {
      assert candidate <= e.id && (|candidate| == 8 || (|candidate| < 8 && candidate == e.id));
    }
  }
}
