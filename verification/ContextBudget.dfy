/** Assembling a prompt of seven sections within a total token budget: section budgets are lowered in
    a fixed order, down to floors, and the floors that were only defaults give way last. */
module ContextBudget {

  import opened Clipping
  import Compaction
  import opened Sequences
  import opened Strings
  import opened Wrappers

  datatype Section = Prefix | Checkpoint | Memory | RelevantMemory | Skills | History | CurrentRequest

  const DEFAULT_ORDER := [Skills, RelevantMemory, History, Memory, Prefix]
  const RECENT_WINDOW := 6

  type Amounts = map<Section, int>

  predicate Reducible(s: Section) { s != Checkpoint && s != CurrentRequest }

  function Get(amounts: Amounts, s: Section): int { if s in amounts then amounts[s] else 0 }

  /** What the sections are made of. */
  datatype Material = Material(
    prefix: string, checkpoint: string, memory: string, skills: string, userMessage: string,
    notes: seq<string>, history: seq<Compaction.Entry>, summaries: Compaction.Summaries)

  /** The section of the current request. */
  function Request(m: Material): string { "Current user request:\n" + m.userMessage }

  // ---------------------------------------------------------------------------
  // Sections
  // ---------------------------------------------------------------------------

  function NonBlank(notes: seq<string>): seq<string>
  {
    if notes == [] then []
    else if Strip(notes[0]) == "" then NonBlank(notes[1..])
    else [notes[0]] + NonBlank(notes[1..])
  }

  function NoteLines(notes: seq<string>): seq<string>
  {
    if notes == [] then [] else ["- " + notes[0]] + NoteLines(notes[1..])
  }

  function NotesText(notes: seq<string>): string { Join(["Relevant memory:"] + NoteLines(notes), "\n") }

  function ClipNotes(count: TextCounter, notes: seq<string>, limit: int): seq<string>
  {
    if notes == [] then [] else [Clip(count, notes[0], limit)] + ClipNotes(count, notes[1..], limit)
  }

  /** The notes, each within an equal share that shrinks until all fit or the share is one. */
  function SharedNotes(count: TextCounter, notes: seq<string>, budget: int, share: nat): string
  {
    var rendered := NotesText(ClipNotes(count, notes, share));
    if count(rendered) <= budget || share <= 1 then rendered else SharedNotes(count, notes, budget, share - 1)
  }

  function Share(notes: seq<string>, budget: int): nat
    requires notes != []
  {
    if budget <= 0 then 0 else if budget / |notes| < 1 then 1 else budget / |notes|
  }

  function RelevantText(count: TextCounter, notes: seq<string>, budget: int): string
  {
    if notes == [] then Clip(count, "Relevant memory:\n- none", budget)
    else
      var rendered := SharedNotes(count, notes, budget, Share(notes, budget));
      if count(rendered) > budget then Clip(count, NotesText(notes), budget) else rendered
  }

  method RenderRelevantMemory(count: TextCounter, notes: seq<string>, budget: int) returns (rendered: string)
    ensures rendered == RelevantText(count, NonBlank(notes), budget)
  {
    var texts := NonBlank(notes);
    if texts == [] {
      rendered := ClipText(count, "Relevant memory:\n- none", budget);
      return;
    }
    var share := Share(texts, budget);
    rendered := NotesText(ClipNotes(count, texts, share));
    while count(rendered) > budget && share > 1
      invariant rendered == NotesText(ClipNotes(count, texts, share))
      invariant SharedNotes(count, texts, budget, share) == SharedNotes(count, texts, budget, Share(texts, budget))
      decreases share
    {
      share := share - 1;
      rendered := NotesText(ClipNotes(count, texts, share));
    }
    if count(rendered) > budget {
      rendered := ClipText(count, NotesText(texts), budget);
    }
  }

  function HistorySettings(count: TextCounter, m: Material, budget: int): Compaction.Settings
  {
    Compaction.Settings(count, RECENT_WINDOW, if budget < 0 then 0 else budget, m.summaries)
  }

  /** The text of one section under its budget; two sections are never cut. */
  function SectionText(count: TextCounter, m: Material, s: Section, budget: int): string
  {
    match s
    case Prefix => Clip(count, m.prefix, budget)
    case Checkpoint => m.checkpoint
    case Memory => Clip(count, m.memory, budget)
    case RelevantMemory => RelevantText(count, NonBlank(m.notes), budget)
    case Skills => Clip(count, m.skills, budget)
    case History => Compaction.Transcript(HistorySettings(count, m, budget), m.history)
    case CurrentRequest => Request(m)
  }

  function Append(text: string, section: string): string
  {
    if section == "" then text else if text == "" then section else text + "\n\n" + section
  }

  function Body(count: TextCounter, m: Material, budgets: Amounts): string
  {
    var a := SectionText(count, m, Prefix, Get(budgets, Prefix));
    var b := Append(a, m.checkpoint);
    var c := Append(b, SectionText(count, m, Memory, Get(budgets, Memory)));
    var d := Append(c, SectionText(count, m, RelevantMemory, Get(budgets, RelevantMemory)));
    var e := Append(d, SectionText(count, m, Skills, Get(budgets, Skills)));
    Append(e, SectionText(count, m, History, Get(budgets, History)))
  }

  /** The non-empty sections, in order, the request last. */
  function Prompt(count: TextCounter, m: Material, budgets: Amounts): string
  {
    Strip(Append(Body(count, m, budgets), Request(m)))
  }

  // ---------------------------------------------------------------------------
  // Reducing
  // ---------------------------------------------------------------------------

  datatype Setup = Setup(count: TextCounter, total: int, order: seq<Section>, segments: Amounts, overrides: Amounts)

  datatype Plan = Plan(budgets: Amounts, floors: Amounts, relaxed: bool)

  /** A quarter of each configured budget but at least 20, unless given explicitly. */
  function InitialFloors(setup: Setup): Amounts
  {
    (map s | s in setup.segments :: if setup.segments[s] / 4 > 20 then setup.segments[s] / 4 else 20) + setup.overrides
  }

  predicate AboveFloor(plan: Plan, s: Section) { Get(plan.budgets, s) > Get(plan.floors, s) }

  predicate AtFloors(order: seq<Section>, plan: Plan)
  {
    forall i :: 0 <= i < |order| ==> !AboveFloor(plan, order[i])
  }

  predicate IsFirstAbove(order: seq<Section>, plan: Plan, i: nat)
  {
    i < |order| && AboveFloor(plan, order[i]) && forall j :: 0 <= j < i ==> !AboveFloor(plan, order[j])
  }

  function Lowered(plan: Plan, s: Section, overflow: int): Plan
  {
    var less := Get(plan.budgets, s) - overflow;
    plan.(budgets := plan.budgets[s := if less > Get(plan.floors, s) then less else Get(plan.floors, s)])
  }

  /** Floors that give way: those of the sections in the order that are neither explicit, nor the
      prefix's, nor of a section that is never cut. */
  predicate GivesWay(setup: Setup, s: Section)
  {
    s in setup.order && s != Prefix && s !in setup.overrides && Reducible(s)
  }

  function RelaxedFloors(setup: Setup, floors: Amounts): Amounts
  {
    floors + map s | s in setup.order && GivesWay(setup, s) :: 0
  }

  function Overflow(setup: Setup, m: Material, plan: Plan): int
  {
    setup.count(Prompt(setup.count, m, plan.budgets)) - setup.total
  }

  /** One round while the prompt is too long: the first section above its floor is lowered by the
      overflow; when there is none, the default floors give way, once. */
  ghost predicate IsStep(setup: Setup, m: Material, p: Plan, q: Plan)
  {
    && Overflow(setup, m, p) > 0
    && (if AtFloors(setup.order, p) then
          !p.relaxed && q == p.(relaxed := true, floors := RelaxedFloors(setup, p.floors))
        else exists i: nat :: IsFirstAbove(setup.order, p, i) && q == Lowered(p, setup.order[i], Overflow(setup, m, p)))
  }

  ghost predicate AreSteps(setup: Setup, m: Material, plans: seq<Plan>)
  {
    plans != [] && forall k :: 0 <= k < |plans| - 1 ==> IsStep(setup, m, plans[k], plans[k + 1])
  }

  function InitialBudgets(setup: Setup, given: Amounts, m: Material): Amounts
  {
    var budgets := setup.segments + map s | s in given :: if given[s] < 0 then 0 else given[s];
    if Strip(m.skills) == "" then budgets[Skills := 0] else budgets
  }

  /** A section may not be rendered under a negative budget. */
  predicate HasNegative(budgets: Amounts)
  {
    exists s :: s in budgets && Reducible(s) && budgets[s] < 0
  }

  // The measure by which the rounds end.

  function Above(plan: Plan, s: Section): nat
  {
    if AboveFloor(plan, s) then Get(plan.budgets, s) - Get(plan.floors, s) else 0
  }

  function Excess(plan: Plan): nat
  {
    Above(plan, Prefix) + Above(plan, Checkpoint) + Above(plan, Memory) + Above(plan, RelevantMemory)
    + Above(plan, Skills) + Above(plan, History) + Above(plan, CurrentRequest)
  }

  lemma LoweringShrinksExcess(plan: Plan, s: Section, overflow: int)
    requires AboveFloor(plan, s) && overflow > 0
    ensures Excess(Lowered(plan, s, overflow)) < Excess(plan)
  {
    var q := Lowered(plan, s, overflow);
    assert Above(q, s) < Above(plan, s);
    assert forall t :: t != s ==> Above(q, t) == Above(plan, t);
  }

  datatype Outcome =
    | Built(prompt: string, budgets: Amounts)
    | Exceeded(observed: nat, budget: int)
    | NegativeBudget

  function RelaxedUpTo(setup: Setup, floors: Amounts, i: nat): Amounts
    requires i <= |setup.order|
  {
    floors + map s | s in setup.order[..i] && GivesWay(setup, s) :: 0
  }

  lemma RelaxOne(setup: Setup, floors: Amounts, i: nat)
    requires i < |setup.order|
    ensures var less := RelaxedUpTo(setup, floors, i);
            RelaxedUpTo(setup, floors, i + 1)
            == if GivesWay(setup, setup.order[i]) then less[setup.order[i] := 0] else less
  {
    hide GivesWay;
    var s := setup.order[i];
    assert forall t :: t in setup.order[..i + 1] <==> t in setup.order[..i] || t == s by {
      assert setup.order[..i + 1] == setup.order[..i] + [s];
    }
  }

  class ContextManager {
    const setup: Setup
    var floors: Amounts

    constructor (setup: Setup)
      requires setup.total >= 1 && forall s :: s in setup.segments ==> setup.segments[s] >= 0
      ensures this.setup == setup && floors == InitialFloors(setup)
    {
      this.setup := setup;
      floors := InitialFloors(setup);
    }

    method RelaxFloors()
      modifies this`floors
      ensures floors == RelaxedFloors(setup, old(floors))
    {
      var i := 0;
      assert floors == RelaxedUpTo(setup, old(floors), 0);
      while i < |setup.order|
        invariant 0 <= i <= |setup.order| && floors == RelaxedUpTo(setup, old(floors), i)
      {
        var s := setup.order[i];
        RelaxOne(setup, old(floors), i);
        if s != Prefix && s !in setup.overrides && Reducible(s) {
          floors := floors[s := 0];
        }
        i := i + 1;
      }
      assert setup.order[..i] == setup.order;
    }

    /** The first section in the order that is above its floor. */
    method FindAbove(budgets: Amounts, ghost relaxed: bool) returns (i: nat)
      ensures i <= |setup.order|
      ensures i < |setup.order| ==> IsFirstAbove(setup.order, Plan(budgets, floors, relaxed), i)
      ensures i == |setup.order| ==> AtFloors(setup.order, Plan(budgets, floors, relaxed))
    {
      i := 0;
      while i < |setup.order| && Get(budgets, setup.order[i]) <= Get(floors, setup.order[i])
        invariant i <= |setup.order|
        invariant forall j :: 0 <= j < i ==> !AboveFloor(Plan(budgets, floors, relaxed), setup.order[j])
      {
        i := i + 1;
      }
    }

    method Build(m: Material, given: Amounts) returns (outcome: Outcome, ghost plans: seq<Plan>)
      modifies this`floors
      ensures AreSteps(setup, m, plans)
      ensures plans[0] == Plan(InitialBudgets(setup, given, m), InitialFloors(setup), false)
      ensures floors == plans[|plans| - 1].floors
      ensures HasNegative(plans[|plans| - 1].budgets) <==> outcome.NegativeBudget?
      ensures outcome.Built? ==>
                outcome.budgets == plans[|plans| - 1].budgets
                && outcome.prompt == Prompt(setup.count, m, outcome.budgets) && setup.count(outcome.prompt) <= setup.total
      ensures outcome.Exceeded? ==>
                outcome.observed == setup.count(Prompt(setup.count, m, plans[|plans| - 1].budgets)) > setup.total
                && outcome.budget == setup.total
                && AtFloors(setup.order, plans[|plans| - 1]) && plans[|plans| - 1].relaxed
    {
      hide Prompt, AreSteps, InitialFloors, InitialBudgets, RelaxedFloors, Excess, IsFirstAbove, HasNegative;
      floors := InitialFloors(setup);
      var budgets := InitialBudgets(setup, given, m);
      var relaxed := false;
      plans := [Plan(budgets, floors, relaxed)];
      FirstPlan(setup, m, plans[0]);
      if HasNegative(budgets) { return NegativeBudget, plans; }
      var prompt := Prompt(setup.count, m, budgets);
      while setup.count(prompt) > setup.total
        invariant AreSteps(setup, m, plans) && plans != []
        invariant plans[0] == Plan(InitialBudgets(setup, given, m), InitialFloors(setup), false)
        invariant plans[|plans| - 1] == Plan(budgets, floors, relaxed)
        invariant prompt == Prompt(setup.count, m, budgets) && !HasNegative(budgets)
        decreases !relaxed, Excess(Plan(budgets, floors, relaxed))
      {
        var overflow := setup.count(prompt) - setup.total;
        var i := FindAbove(budgets, relaxed);
        if i < |setup.order| {
          var s := setup.order[i];
          var less := Get(budgets, s) - overflow;
          LoweringShrinksExcess(Plan(budgets, floors, relaxed), s, overflow);
          OneMoreStep(setup, m, plans, Lowered(plans[|plans| - 1], s, overflow));
          budgets := budgets[s := if less > Get(floors, s) then less else Get(floors, s)];
          plans := plans + [Plan(budgets, floors, relaxed)];
          if HasNegative(budgets) { return NegativeBudget, plans; }
          prompt := Prompt(setup.count, m, budgets);
        } else {
          if relaxed { return Exceeded(setup.count(prompt), setup.total), plans; }
          OneMoreStep(setup, m, plans, plans[|plans| - 1].(relaxed := true, floors := RelaxedFloors(setup, floors)));
          RelaxFloors();
          relaxed := true;
          plans := plans + [Plan(budgets, floors, relaxed)];
        }
      }
      outcome := Built(prompt, budgets);
    }
  }

  lemma FirstPlan(setup: Setup, m: Material, p: Plan)
    ensures AreSteps(setup, m, [p])
  {
  }

  lemma OneMoreStep(setup: Setup, m: Material, plans: seq<Plan>, q: Plan)
    requires AreSteps(setup, m, plans) && IsStep(setup, m, plans[|plans| - 1], q)
    ensures AreSteps(setup, m, plans + [q])
  {
    hide IsStep;
    var more := plans + [q];
    forall k | 0 <= k < |more| - 1 ensures IsStep(setup, m, more[k], more[k + 1]) {
      if k < |plans| - 1 { assert more[k] == plans[k] && more[k + 1] == plans[k + 1]; }
    }
  }

  // ---------------------------------------------------------------------------
  // What every round keeps
  // ---------------------------------------------------------------------------

  /** The floor of the prefix and the explicit floors stand; the others stand or give way to 0. */
  predicate FloorsProtected(setup: Setup, first: Amounts, floors: Amounts)
  {
    forall s :: Get(floors, s) == Get(first, s) || (GivesWay(setup, s) && Get(floors, s) == 0)
  }

  /** Budgets only go down, never below the floor unless they began there, and only in the order. */
  predicate BudgetsBounded(setup: Setup, first: Plan, plan: Plan)
  {
    forall s ::
      && Get(plan.budgets, s) <= Get(first.budgets, s)
      && (Get(plan.budgets, s) == Get(first.budgets, s) || (s in setup.order && Get(plan.budgets, s) >= Get(plan.floors, s)))
  }

  lemma StepKeepsFloors(setup: Setup, m: Material, first: Amounts, p: Plan, q: Plan)
    requires FloorsProtected(setup, first, p.floors) && IsStep(setup, m, p, q)
    ensures FloorsProtected(setup, first, q.floors)
  {
    hide Overflow, AtFloors, IsFirstAbove;
  }

  lemma StepKeepsBudgets(setup: Setup, m: Material, first: Plan, p: Plan, q: Plan)
    requires BudgetsBounded(setup, first, p) && IsStep(setup, m, p, q)
    requires forall s :: GivesWay(setup, s) ==> Get(p.floors, s) >= 0
    ensures BudgetsBounded(setup, first, q)
    ensures forall s :: GivesWay(setup, s) ==> Get(q.floors, s) >= 0
  {
    hide Overflow;
  }

  lemma NothingChanged(setup: Setup, plan: Plan)
    ensures FloorsProtected(setup, plan.floors, plan.floors) && BudgetsBounded(setup, plan, plan)
  {
  }

  lemma {:induction false} PlansKeepFloors(setup: Setup, m: Material, plans: seq<Plan>, k: nat)
    requires AreSteps(setup, m, plans) && k < |plans|
    ensures FloorsProtected(setup, plans[0].floors, plans[k].floors)
    decreases k
  {
    NothingChanged(setup, plans[0]);
    hide IsStep, FloorsProtected;
    if k > 0 {
      PlansKeepFloors(setup, m, plans, k - 1);
      assert IsStep(setup, m, plans[k - 1], plans[k - 1 + 1]);
      StepKeepsFloors(setup, m, plans[0].floors, plans[k - 1], plans[k]);
    }
  }

  lemma {:induction false} PlansKeepBudgets(setup: Setup, m: Material, plans: seq<Plan>, k: nat)
    requires AreSteps(setup, m, plans) && k < |plans|
    requires forall s :: GivesWay(setup, s) ==> Get(plans[0].floors, s) >= 0
    ensures BudgetsBounded(setup, plans[0], plans[k])
    ensures forall s :: GivesWay(setup, s) ==> Get(plans[k].floors, s) >= 0
    decreases k
  {
    NothingChanged(setup, plans[0]);
    hide IsStep, BudgetsBounded;
    if k > 0 {
      PlansKeepBudgets(setup, m, plans, k - 1);
      assert IsStep(setup, m, plans[k - 1], plans[k - 1 + 1]);
      StepKeepsBudgets(setup, m, plans[0], plans[k - 1], plans[k]);
    }
  }

  lemma DefaultFloorsArePositive(setup: Setup)
    ensures forall s :: GivesWay(setup, s) ==> Get(InitialFloors(setup), s) >= 0
  {
  }

  /** What a build begins with: a floor of a quarter of the configured budget but at least 20, unless one
      is given explicitly; the budgets given for this build, taken as 0 if negative, over the configured
      ones, and nothing for skills when there are none. */
  lemma BeginningMeans(setup: Setup, given: Amounts, m: Material, s: Section)
    ensures var floors := InitialFloors(setup);
            && (s in setup.overrides ==> s in floors && floors[s] == setup.overrides[s])
            && (s !in setup.overrides && s in setup.segments ==>
                  s in floors && floors[s] >= 20
                  && (if setup.segments[s] < 84 then floors[s] == 20 else 0 <= setup.segments[s] - 4 * floors[s] < 4))
            && (s !in setup.overrides && s !in setup.segments ==> s !in floors)
    ensures var budgets, noSkills := InitialBudgets(setup, given, m), forall i :: 0 <= i < |m.skills| ==> IsSpace(m.skills[i]);
            && (s == Skills && noSkills ==> s in budgets && budgets[s] == 0)
            && (!(s == Skills && noSkills) && s in given && given[s] >= 0 ==> s in budgets && budgets[s] == given[s])
            && (!(s == Skills && noSkills) && s in given && given[s] < 0 ==> s in budgets && budgets[s] == 0)
            && (!(s == Skills && noSkills) && s !in given ==>
                  (s in budgets <==> s in setup.segments) && (s in budgets ==> budgets[s] == setup.segments[s]))
  {
    StripIsEmpty(m.skills);
    hide Strip;
  }

  /** A build fails on a negative budget of a section that may be cut, and on no other. */
  lemma NegativeMeans(budgets: Amounts)
    ensures HasNegative(budgets)
            <==> exists s :: s in {Prefix, Memory, RelevantMemory, Skills, History} && s in budgets && budgets[s] < 0
  {
    forall s
      ensures Reducible(s) <==> s in {Prefix, Memory, RelevantMemory, Skills, History}
    {
      KindsOf(s);
    }
  }

  /** How far the section is above its floor, in tokens; what is missing counts as 0. */
  function Room(plan: Plan, s: Section): int
  {
    (if s in plan.budgets then plan.budgets[s] else 0) - (if s in plan.floors then plan.floors[s] else 0)
  }

  /** Every other section keeps its budget, and this one loses the overflow, but not more than it has
      room for. */
  ghost predicate Shrinks(p: Plan, q: Plan, s: Section, overflow: int)
  {
    && q.floors == p.floors && q.relaxed == p.relaxed && s in q.budgets
    && (forall t :: t != s ==> (t in q.budgets <==> t in p.budgets) && (t in p.budgets ==> q.budgets[t] == p.budgets[t]))
    && Room(q, s) == (if overflow < Room(p, s) then Room(p, s) - overflow else 0)
  }

  /** A default floor gives way, if it is of a section in the order that may be cut and not the prefix. */
  ghost predicate GaveWay(setup: Setup, p: Plan, q: Plan, s: Section)
  {
    if s in setup.order && s !in setup.overrides && s in {Memory, RelevantMemory, Skills, History}
    then s in q.floors && q.floors[s] == 0
    else (s in q.floors <==> s in p.floors) && (s in p.floors ==> q.floors[s] == p.floors[s])
  }

  /** A round is there because the prompt is too long. When no section in the order has room, the
      floors give way, and that only once. */
  lemma RelaxingMeans(setup: Setup, m: Material, p: Plan, q: Plan)
    requires IsStep(setup, m, p, q) && forall i :: 0 <= i < |setup.order| ==> Room(p, setup.order[i]) <= 0
    ensures setup.count(Prompt(setup.count, m, p.budgets)) > setup.total
    ensures !p.relaxed && q.relaxed && q.budgets == p.budgets && forall s :: GaveWay(setup, p, q, s)
  {
    hide Prompt, AboveFloor, Room, GaveWay, RelaxedFloors, Overflow, Lowered;
    OverflowIs(setup, m, p);
    forall i | 0 <= i < |setup.order| ensures !AboveFloor(p, setup.order[i]) { RoomIs(p, setup.order[i]); }
    forall s ensures GaveWay(setup, p, q, s) { FloorGivesWay(setup, p, q, s); }
  }

  /** While a section in the order has room, the first such section shrinks by the overflow. */
  lemma LoweringMeans(setup: Setup, m: Material, p: Plan, q: Plan, k: nat) returns (i: nat)
    requires IsStep(setup, m, p, q) && k < |setup.order| && Room(p, setup.order[k]) > 0
    ensures setup.count(Prompt(setup.count, m, p.budgets)) > setup.total
    ensures i <= k && Room(p, setup.order[i]) > 0 && forall j :: 0 <= j < i ==> Room(p, setup.order[j]) <= 0
    ensures Shrinks(p, q, setup.order[i], setup.count(Prompt(setup.count, m, p.budgets)) - setup.total)
  {
    hide Prompt, AboveFloor, Room, Shrinks, RelaxedFloors, Overflow, Lowered;
    OverflowIs(setup, m, p);
    RoomIs(p, setup.order[k]);
    i :| IsFirstAbove(setup.order, p, i) && q == Lowered(p, setup.order[i], Overflow(setup, m, p));
    RoomIs(p, setup.order[i]);
    forall j | 0 <= j < i ensures Room(p, setup.order[j]) <= 0 { RoomIs(p, setup.order[j]); }
    LoweredShrinks(p, setup.order[i], Overflow(setup, m, p));
  }

  lemma OverflowIs(setup: Setup, m: Material, plan: Plan)
    ensures Overflow(setup, m, plan) == setup.count(Prompt(setup.count, m, plan.budgets)) - setup.total
  {
  }

  lemma RoomIs(p: Plan, s: Section)
    ensures AboveFloor(p, s) <==> Room(p, s) > 0
  {
  }

  lemma FloorGivesWay(setup: Setup, p: Plan, q: Plan, s: Section)
    requires q.floors == RelaxedFloors(setup, p.floors)
    ensures GaveWay(setup, p, q, s)
  {
    KindsOf(s);
  }

  lemma LoweredShrinks(p: Plan, s: Section, overflow: int)
    requires AboveFloor(p, s)
    ensures Shrinks(p, Lowered(p, s, overflow), s, overflow)
  {
  }

  lemma KindsOf(s: Section)
    ensures Reducible(s) <==> s in {Prefix, Memory, RelevantMemory, Skills, History}
  {
    match s { case Prefix => case Checkpoint => case Memory => case RelevantMemory => case Skills => case History => case CurrentRequest => }
  }

  /** A build gives up when no section in the order has room and the floors have given way. */
  lemma GivenUpMeans(setup: Setup, last: Plan)
    requires AtFloors(setup.order, last) && last.relaxed
    ensures forall s :: s in setup.order ==> Room(last, s) <= 0
  {
    forall s | s in setup.order ensures Room(last, s) <= 0 { assert !AboveFloor(last, s); }
  }

  /** However many rounds it takes: the prefix's floor and the explicit floors are never lowered, and
      no section is cut below its floor in force. */
  lemma ReductionRespectsFloors(setup: Setup, m: Material, given: Amounts, plans: seq<Plan>)
    requires AreSteps(setup, m, plans)
    requires plans[0] == Plan(InitialBudgets(setup, given, m), InitialFloors(setup), false)
    ensures FloorsProtected(setup, InitialFloors(setup), plans[|plans| - 1].floors)
    ensures BudgetsBounded(setup, plans[0], plans[|plans| - 1])
    ensures Get(plans[|plans| - 1].floors, Prefix) == Get(InitialFloors(setup), Prefix)
    ensures forall s :: s in setup.overrides ==> Get(plans[|plans| - 1].floors, s) == setup.overrides[s]
  {
    DefaultFloorsArePositive(setup);
    PlansKeepFloors(setup, m, plans, |plans| - 1);
    PlansKeepBudgets(setup, m, plans, |plans| - 1);
    assert forall s :: s in setup.overrides ==> Get(InitialFloors(setup), s) == setup.overrides[s];
  }

  // ---------------------------------------------------------------------------
  // What the prompt contains
  // ---------------------------------------------------------------------------

  lemma RelevantFits(count: TextCounter, notes: seq<string>, budget: nat)
    requires count("") == 0
    ensures count(RelevantText(count, notes, budget)) <= budget
  {
    ClipFits(count, "Relevant memory:\n- none", budget);
    ClipFits(count, NotesText(notes), budget);
  }

  lemma {:induction false} NotesAre(count: TextCounter, notes: seq<string>, share: int)
    ensures ClipNotes(count, notes, share) == seq(|notes|, i requires 0 <= i < |notes| => Clip(count, notes[i], share))
    ensures NoteLines(notes) == seq(|notes|, i requires 0 <= i < |notes| => "- " + notes[i])
    decreases |notes|
  {
    if notes != [] {
      NotesAre(count, notes[1..], share);
    }
  }

  lemma {:induction false} NonBlankIs(notes: seq<string>)
    ensures NonBlank(notes) == Filter(notes, (n: string) => exists i :: 0 <= i < |n| && !IsSpace(n[i]))
    decreases |notes|
  {
    if notes != [] {
      NonBlankIs(notes[1..]);
      StripIsEmpty(notes[0]);
    }
  }

  /** The text is the list of the notes, each clipped to a number of tokens. */
  ghost predicate ListsNotes(count: TextCounter, notes: seq<string>, share: int, text: string)
  {
    text == Join(["Relevant memory:"] + seq(|notes|, i requires 0 <= i < |notes| => "- " + Clip(count, notes[i], share)), "\n")
  }

  lemma NotesTextLists(count: TextCounter, notes: seq<string>, share: int)
    ensures ListsNotes(count, notes, share, NotesText(ClipNotes(count, notes, share)))
  {
    var clipped := ClipNotes(count, notes, share);
    NotesAre(count, notes, share);
    NotesAre(count, clipped, share);
    assert NoteLines(clipped) == seq(|notes|, i requires 0 <= i < |notes| => "- " + Clip(count, notes[i], share));
  }

  /** The share in the end: from `first` down, no larger one fits. */
  ghost predicate IsLargestShare(count: TextCounter, notes: seq<string>, budget: int, first: nat, share: nat, text: string)
  {
    && share <= first && ListsNotes(count, notes, share, text) && (share <= 1 || count(text) <= budget)
    && forall k, other :: share < k <= first && ListsNotes(count, notes, k, other) ==> count(other) > budget
  }

  lemma {:induction false} SharedIsLargest(count: TextCounter, notes: seq<string>, budget: int, first: nat)
    ensures exists share: nat :: IsLargestShare(count, notes, budget, first, share, SharedNotes(count, notes, budget, first))
    decreases first
  {
    NotesTextLists(count, notes, first);
    var rendered := NotesText(ClipNotes(count, notes, first));
    if count(rendered) <= budget || first <= 1 {
      assert SharedNotes(count, notes, budget, first) == rendered;
      assert IsLargestShare(count, notes, budget, first, first, SharedNotes(count, notes, budget, first));
    } else {
      SharedIsLargest(count, notes, budget, first - 1);
      var text := SharedNotes(count, notes, budget, first - 1);
      var share: nat :| IsLargestShare(count, notes, budget, first - 1, share, text);
      assert SharedNotes(count, notes, budget, first) == text;
      assert IsLargestShare(count, notes, budget, first, share, SharedNotes(count, notes, budget, first));
    }
  }

  /** The section of relevant memory lists the notes that are not blank, each within the largest equal
      share at which the list fits, starting from an equal part of the budget; if even one token each is
      too much the whole list is clipped, and without notes a note that there are none. */
  lemma RelevantMeans(count: TextCounter, m: Material, budget: int)
    ensures var notes := Filter(m.notes, (n: string) => exists i :: 0 <= i < |n| && !IsSpace(n[i]));
            var section := SectionText(count, m, RelevantMemory, budget);
            && (notes == [] ==> section == Clip(count, "Relevant memory:\n- none", budget))
            && (notes != [] ==>
                  exists first: nat, share: nat, text ::
                    && (budget <= 0 ==> first == 0) && (0 < budget < |notes| ==> first == 1)
                    && (budget >= |notes| ==> first == budget / |notes|)
                    && IsLargestShare(count, notes, budget, first, share, text)
                    && section == if count(text) <= budget then text
                                  else Clip(count, Join(["Relevant memory:"] + seq(|notes|, i requires 0 <= i < |notes| => "- " + notes[i]), "\n"), budget))
  {
    NonBlankIs(m.notes);
    var notes := NonBlank(m.notes);
    if notes != [] {
      var first := Share(notes, budget);
      SharedIsLargest(count, notes, budget, first);
      var text := SharedNotes(count, notes, budget, first);
      var share: nat :| IsLargestShare(count, notes, budget, first, share, text);
      NotesAre(count, notes, 0);
      ShareIs(notes, budget);
      hide Share, SharedNotes, NonBlank, IsLargestShare, Clip;
      assert SectionText(count, m, RelevantMemory, budget)
          == if count(text) <= budget then text else Clip(count, NotesText(notes), budget);
    }
  }

  lemma ShareIs(notes: seq<string>, budget: int)
    requires notes != []
    ensures var first := Share(notes, budget);
            (budget <= 0 ==> first == 0) && (0 < budget < |notes| ==> first == 1)
            && (budget >= |notes| ==> first == budget / |notes|)
  {
    if budget >= |notes| { assert budget / |notes| >= 1; }
  }

  /** The history section is the transcript of the history with six recent entries, within the budget. */
  lemma HistoryMeans(count: TextCounter, m: Material, budget: int)
    ensures SectionText(count, m, History, budget)
         == Compaction.Transcript(Compaction.Settings(count, 6, if budget >= 0 then budget else 0, m.summaries), m.history)
  {
  }

  /** Every section that may be cut is within its own budget, for any counter of texts. */
  lemma SectionFits(count: TextCounter, m: Material, s: Section, budget: nat)
    requires count("") == 0 && Reducible(s)
    ensures count(SectionText(count, m, s, budget)) <= budget
  {
    match s
    case Prefix => ClipFits(count, m.prefix, budget);
    case Memory => ClipFits(count, m.memory, budget);
    case RelevantMemory => RelevantFits(count, NonBlank(m.notes), budget);
    case Skills => ClipFits(count, m.skills, budget);
    case History => Compaction.TranscriptFits(HistorySettings(count, m, budget), m.history);
  }

  const SECTIONS := [Prefix, Checkpoint, Memory, RelevantMemory, Skills, History, CurrentRequest]

  /** The texts of some sections, without the empty ones. */
  ghost function NonEmptyTexts(count: TextCounter, m: Material, budgets: Amounts, sections: seq<Section>): seq<string>
  {
    if sections == [] then []
    else
      var text := SectionText(count, m, sections[0], Get(budgets, sections[0]));
      (if text == "" then [] else [text]) + NonEmptyTexts(count, m, budgets, sections[1..])
  }

  lemma {:induction false} NonEmptyAppend(count: TextCounter, m: Material, budgets: Amounts, a: seq<Section>, s: Section)
    ensures var text := SectionText(count, m, s, Get(budgets, s));
            NonEmptyTexts(count, m, budgets, a + [s])
            == NonEmptyTexts(count, m, budgets, a) + (if text == "" then [] else [text])
    decreases |a|
  {
    hide SectionText;
    if a == [] {
      assert a + [s] == [s] && [s][1..] == [];
    } else {
      assert (a + [s])[0] == a[0] && (a + [s])[1..] == a[1..] + [s];
      NonEmptyAppend(count, m, budgets, a[1..], s);
    }
  }

  lemma {:induction false} JoinAppend(lines: seq<string>, last: string, separator: string)
    requires lines != []
    ensures Join(lines + [last], separator) == Join(lines, separator) + separator + last
    decreases |lines|
  {
    if |lines| == 1 {
      assert (lines + [last])[1..] == [last];
    } else {
      assert (lines + [last])[0] == lines[0] && (lines + [last])[1..] == lines[1..] + [last];
      JoinAppend(lines[1..], last, separator);
      var tail := Join(lines[1..], separator);
      assert lines[0] + separator + (tail + separator + last) == (lines[0] + separator + tail) + separator + last;
    }
  }

  lemma {:induction false} JoinNonEmpty(lines: seq<string>)
    requires lines != [] && forall i :: 0 <= i < |lines| ==> lines[i] != ""
    ensures Join(lines, "\n\n") != ""
  {
  }

  /** The texts joined so far. */
  ghost predicate Joins(count: TextCounter, m: Material, budgets: Amounts, sections: seq<Section>, text: string)
  {
    var texts := NonEmptyTexts(count, m, budgets, sections);
    text == Join(texts, "\n\n") && forall i :: 0 <= i < |texts| ==> texts[i] != ""
  }

  lemma AppendJoins(count: TextCounter, m: Material, budgets: Amounts, sections: seq<Section>, text: string, s: Section)
    requires Joins(count, m, budgets, sections, text)
    ensures Joins(count, m, budgets, sections + [s], Append(text, SectionText(count, m, s, Get(budgets, s))))
  {
    NonEmptyAppend(count, m, budgets, sections, s);
    hide SectionText, NonEmptyTexts;
    var texts := NonEmptyTexts(count, m, budgets, sections);
    var last := SectionText(count, m, s, Get(budgets, s));
    if texts != [] {
      JoinNonEmpty(texts);
      JoinAppend(texts, last, "\n\n");
    } else {
      assert texts + [last] == [last];
    }
    assert texts + [] == texts;
  }

  /** The texts of some sections appended to a text one after the other. */
  ghost function Appended(count: TextCounter, m: Material, budgets: Amounts, sections: seq<Section>, text: string): string
  {
    if sections == [] then text
    else
      Appended(count, m, budgets, sections[1..], Append(text, SectionText(count, m, sections[0], Get(budgets, sections[0]))))
  }

  lemma {:induction false} AppendedJoins(
    count: TextCounter, m: Material, budgets: Amounts, before: seq<Section>, sections: seq<Section>, text: string)
    requires Joins(count, m, budgets, before, text)
    ensures Joins(count, m, budgets, before + sections, Appended(count, m, budgets, sections, text))
    decreases |sections|
  {
    hide Joins, SectionText, Append;
    if sections == [] {
      assert before + sections == before;
    } else {
      AppendJoins(count, m, budgets, before, text, sections[0]);
      assert before + sections == (before + [sections[0]]) + sections[1..];
      AppendedJoins(count, m, budgets, before + [sections[0]], sections[1..],
                    Append(text, SectionText(count, m, sections[0], Get(budgets, sections[0]))));
    }
  }

  lemma NextAppended(count: TextCounter, m: Material, budgets: Amounts, s: Section, rest: seq<Section>, text: string)
    ensures Appended(count, m, budgets, [s] + rest, text)
         == Appended(count, m, budgets, rest, Append(text, SectionText(count, m, s, Get(budgets, s))))
  {
    assert ([s] + rest)[1..] == rest;
  }

  lemma BodyIsAppended(count: TextCounter, m: Material, budgets: Amounts)
    ensures Append(Body(count, m, budgets), Request(m)) == Appended(count, m, budgets, SECTIONS, "")
  {
    var a := SectionText(count, m, Prefix, Get(budgets, Prefix));
    var b := Append(a, SectionText(count, m, Checkpoint, Get(budgets, Checkpoint)));
    var c := Append(b, SectionText(count, m, Memory, Get(budgets, Memory)));
    var d := Append(c, SectionText(count, m, RelevantMemory, Get(budgets, RelevantMemory)));
    var e := Append(d, SectionText(count, m, Skills, Get(budgets, Skills)));
    var f := Append(e, SectionText(count, m, History, Get(budgets, History)));
    assert f == Body(count, m, budgets);
    assert Request(m) == SectionText(count, m, CurrentRequest, Get(budgets, CurrentRequest)) && Append("", a) == a;
    hide SectionText, Append, Body, Request;
    NextAppended(count, m, budgets, Prefix, [Checkpoint, Memory, RelevantMemory, Skills, History, CurrentRequest], "");
    NextAppended(count, m, budgets, Checkpoint, [Memory, RelevantMemory, Skills, History, CurrentRequest], a);
    NextAppended(count, m, budgets, Memory, [RelevantMemory, Skills, History, CurrentRequest], b);
    NextAppended(count, m, budgets, RelevantMemory, [Skills, History, CurrentRequest], c);
    NextAppended(count, m, budgets, Skills, [History, CurrentRequest], d);
    NextAppended(count, m, budgets, History, [CurrentRequest], e);
    NextAppended(count, m, budgets, CurrentRequest, [], f);
  }

  /** The prompt is the join, by blank lines and stripped, of the texts of all seven sections in
      their order, without the empty ones. */
  lemma PromptJoinsSections(count: TextCounter, m: Material, budgets: Amounts)
    ensures Prompt(count, m, budgets) == Strip(Join(NonEmptyTexts(count, m, budgets, SECTIONS), "\n\n"))
  {
    BodyIsAppended(count, m, budgets);
    AppendedJoins(count, m, budgets, [], SECTIONS, "");
    assert [] + SECTIONS == SECTIONS;
  }

  lemma {:induction false} NonEmptyIsListed(count: TextCounter, m: Material, budgets: Amounts, sections: seq<Section>, s: Section)
    requires s in sections && SectionText(count, m, s, Get(budgets, s)) != ""
    ensures SectionText(count, m, s, Get(budgets, s)) in NonEmptyTexts(count, m, budgets, sections)
    decreases |sections|
  {
    hide SectionText;
    if sections[0] != s {
      NonEmptyIsListed(count, m, budgets, sections[1..], s);
    }
  }

  lemma {:induction false} JoinHolds(lines: seq<string>, separator: string, i: nat) returns (before: string, after: string)
    requires i < |lines|
    ensures Join(lines, separator) == before + lines[i] + after
    decreases |lines|
  {
    if |lines| == 1 {
      before, after := "", "";
    } else if i == 0 {
      before, after := "", separator + Join(lines[1..], separator);
    } else {
      var b, a := JoinHolds(lines[1..], separator, i - 1);
      before, after := lines[0] + separator + b, a;
    }
  }

  /** So no section is missing: each that has a text is in the prompt before it is stripped. The
      checkpoint and the request are there as they are, and the sections made of one text are that
      text when it fits their budget. */
  lemma SectionArrives(count: TextCounter, m: Material, budgets: Amounts, s: Section)
    ensures var text := SectionText(count, m, s, Get(budgets, s));
            text != "" ==> exists before, after :: Prompt(count, m, budgets) == Strip(before + text + after)
    ensures SectionText(count, m, Checkpoint, Get(budgets, Checkpoint)) == m.checkpoint
    ensures 0 < count(m.prefix) <= Get(budgets, Prefix) ==> SectionText(count, m, Prefix, Get(budgets, Prefix)) == m.prefix
    ensures 0 < count(m.memory) <= Get(budgets, Memory) ==> SectionText(count, m, Memory, Get(budgets, Memory)) == m.memory
    ensures 0 < count(m.skills) <= Get(budgets, Skills) ==> SectionText(count, m, Skills, Get(budgets, Skills)) == m.skills
  {
    var text := SectionText(count, m, s, Get(budgets, s));
    if text != "" {
      PromptJoinsSections(count, m, budgets);
      assert s in SECTIONS by { match s { case Prefix => case Checkpoint => case Memory => case RelevantMemory => case Skills => case History => case CurrentRequest => } }
      NonEmptyIsListed(count, m, budgets, SECTIONS, s);
      var texts := NonEmptyTexts(count, m, budgets, SECTIONS);
      hide SectionText, NonEmptyTexts, Prompt, Join;
      var i :| 0 <= i < |texts| && texts[i] == text;
      var before, after := JoinHolds(texts, "\n\n", i);
    }
  }

  /** The section of the current request ends the prompt, whatever the budgets: all of it but the
      white space at the end of the user's message, and all of it if there is none. */
  lemma RequestIsWhole(count: TextCounter, m: Material, budgets: Amounts)
    ensures exists lead :: Prompt(count, m, budgets) == lead + StripRight(Request(m))
    ensures m.userMessage != "" && !IsSpace(m.userMessage[|m.userMessage| - 1]) ==> StripRight(Request(m)) == Request(m)
  {
    var request := Request(m);
    assert request[0] == 'C';
    hide Body, StripLeft, Request;
    var body := Body(count, m, budgets);
    var before := if body == "" then "" else body + "\n\n";
    assert Append(body, request) == before + request;
    var lead := StripLeftBefore(before, request);
    StripRightBehind(lead, request);
  }
}
