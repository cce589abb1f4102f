/** The text block of one planning slot in the morning task list
    (`build_morning_text`). */
module Morning {
  import opened Wrappers
  import opened Values
  import opened Text

  /** The kinds of line a block can hold, in the order they are written. */
  datatype Kind = Role | ParentTask | SubTask | ServiceCategory | Units | DateRange

  function Rank(k: Kind): nat {
    match k
    case Role => 0
    case ParentTask => 1
    case SubTask => 2
    case ServiceCategory => 3
    case Units => 4
    case DateRange => 5
  }

  /** The label in front of a line; none spans two lines. */
  function Label(k: Kind): (r: string)
    ensures '\n' !in r
  {
    match k
    case Role => "Role"
    case ParentTask => "Parent Task"
    case SubTask => "Sub Task"
    case ServiceCategory => "Service Category"
    case Units => "No. of Units"
    case DateRange => "Date Range"
  }

  /** One line of a block: `Label: value`. */
  datatype Line = Line(kind: Kind, value: string)

  /** A line as the block prints it: `Label: value`. */
  function RenderLine(l: Line): string {
    LabelledLine(Label(l.kind), l.value)
  }

  /** The one placeholder the block ever prints. */
  const MissingParent: string := "Missing Parent Task"

  /** What the block is built from: the three relation labels, the two
      fields of the fetched sub-task when the sub-task id resolves, and the
      date range. */
  datatype Slot = Slot(role: Value, parent: Value, sub: Value, detail: Option<Detail>, range: string)

  /** The service category and number of units of a fetched sub-task, each
      `''` when the record lacks the field. */
  datatype Detail = Detail(category: Value, units: Value)

  /** `sub_val[0]` when the sub-task value is a non-empty list, else None. */
  function SubId(task: Record): Value {
    var v := Get(task, "x_studio_sub_task_1");
    if v.List? && |v.items| > 0 then v.items[0] else Null
  }

  /** The fetched sub-task record, when the id is truthy and was fetched. */
  function SubtaskRecord(task: Record, subtasks: map<Value, Record>): (r: Option<Record>)
    ensures r.Some? <==> Truthy(SubId(task)) && SubId(task) in subtasks
    ensures r.Some? ==> r.value == subtasks[SubId(task)]
  {
    var id := SubId(task);
    if Truthy(id) && id in subtasks then Some(subtasks[id]) else None
  }

  /** The slot's start and end, each `or ""`, through `format_datetime_range`. */
  function RangeOf(task: Record): (r: string)
    ensures r != "" <==> Truthy(Get(task, "start_datetime")) || Truthy(Get(task, "end_datetime"))
  {
    FormatRange(Display(Get(task, "start_datetime")), Display(Get(task, "end_datetime")))
  }

  /** Reads the fields of a planning slot the block needs. The sub-task's
      details are there exactly when the sub-task value is a non-empty list
      whose first element is a truthy id of a fetched record, and then they
      are that record's. */
  function SlotOf(task: Record, subtasks: map<Value, Record>): (s: Slot)
    ensures var v := Get(task, "x_studio_sub_task_1");
      s.detail.Some? <==> v.List? && |v.items| > 0 && Truthy(v.items[0]) && v.items[0] in subtasks
    ensures var v := Get(task, "x_studio_sub_task_1");
      s.detail.Some? ==> v.List? && |v.items| > 0 && s.detail == Some(DetailOf(subtasks[v.items[0]]))
    ensures s.range != "" <==> Truthy(Get(task, "start_datetime")) || Truthy(Get(task, "end_datetime"))
  {
    Slot(FieldName(Get(task, "role_id")),
         FieldName(Get(task, "x_studio_parent_task")),
         FieldName(Get(task, "x_studio_sub_task_1")),
         match SubtaskRecord(task, subtasks)
         case None => None
         case Some(sub) => Some(DetailOf(sub)),
         RangeOf(task))
  }

  function DetailOf(sub: Record): (d: Detail)
    ensures d.category == GetOr(sub, "x_studio_service_category_1", Str(""))
    ensures d.units == GetOr(sub, "x_studio_total_no_of_design_units_sc1", Str(""))
  {
    Detail(GetOr(sub, "x_studio_service_category_1", Str("")),
           GetOr(sub, "x_studio_total_no_of_design_units_sc1", Str("")))
  }

  /** When the block has a line of kind `k`. */
  predicate Emitted(s: Slot, k: Kind) {
    match k
    case Role => Truthy(s.role)
    case ParentTask => true
    case SubTask => Truthy(s.parent) && Truthy(s.sub)
    case ServiceCategory => Truthy(s.parent) && Truthy(s.sub) && s.detail.Some? && Truthy(s.detail.value.category)
    case Units => Truthy(s.parent) && Truthy(s.sub) && s.detail.Some? && Truthy(s.detail.value.units)
    case DateRange => s.range != ""
  }

  /** What a line of kind `k` says after its label. */
  function Content(s: Slot, k: Kind): string {
    match k
    case Role => Format(s.role)
    case ParentTask => if Truthy(s.parent) then Format(s.parent) else MissingParent
    case SubTask => Format(s.sub)
    case ServiceCategory => if s.detail.Some? then Format(s.detail.value.category) else ""
    case Units => if s.detail.Some? then Format(s.detail.value.units) else ""
    case DateRange => s.range
  }

  /** Kinds strictly increase along the block, so none repeats. */
  predicate Ordered(ls: seq<Line>) {
    forall i, j :: 0 <= i < j < |ls| ==> Rank(ls[i].kind) < Rank(ls[j].kind)
  }

  predicate Has(ls: seq<Line>, k: Kind) {
    exists i :: 0 <= i < |ls| && ls[i].kind == k
  }

  /** Every line's kind ranks in `[lo, hi)`. */
  predicate RanksIn(ls: seq<Line>, lo: nat, hi: nat) {
    forall i :: 0 <= i < |ls| ==> lo <= Rank(ls[i].kind) < hi
  }

  /** Every line says what a line of its kind should say for this slot. */
  predicate Faithful(s: Slot, ls: seq<Line>) {
    forall i :: 0 <= i < |ls| ==> ls[i].value == Content(s, ls[i].kind)
  }

  /** A kind occurs in a concatenation when it occurs in either part. */
  lemma HasConcat(a: seq<Line>, b: seq<Line>)
    ensures forall k :: Has(a + b, k) <==> Has(a, k) || Has(b, k)
  {
    forall k ensures Has(a + b, k) <==> Has(a, k) || Has(b, k) {
      if Has(a, k) {
        var i :| 0 <= i < |a| && a[i].kind == k;
        assert (a + b)[i].kind == k;
      }
      if Has(b, k) {
        var i :| 0 <= i < |b| && b[i].kind == k;
        assert (a + b)[|a| + i].kind == k;
      }
      if Has(a + b, k) {
        var i :| 0 <= i < |a + b| && (a + b)[i].kind == k;
        if i < |a| { assert a[i].kind == k; } else { assert b[i - |a|].kind == k; }
      }
    }
  }

  /** A one-line block holds exactly that line's kind. */
  lemma HasSingle(l: Line)
    ensures forall k :: Has([l], k) <==> k == l.kind
  {
    assert [l][0].kind == l.kind;
  }

  /** A run whose ranks lie in `[lo, hi)` holds no kind outside it. */
  lemma HasWithinRanks(ls: seq<Line>, lo: nat, hi: nat)
    requires RanksIn(ls, lo, hi)
    ensures forall k :: Has(ls, k) ==> lo <= Rank(k) < hi
  {
  }

  /** Faithful runs concatenate to a faithful run. */
  lemma FaithfulConcat(s: Slot, a: seq<Line>, b: seq<Line>)
    requires Faithful(s, a) && Faithful(s, b)
    ensures Faithful(s, a + b)
  {
    forall i | 0 <= i < |a + b| ensures (a + b)[i].value == Content(s, (a + b)[i].kind) {
      if i >= |a| { assert (a + b)[i] == b[i - |a|]; }
    }
  }

  /** Two ordered runs, the first ranking below the second, stay ordered. */
  lemma OrderedConcat(a: seq<Line>, b: seq<Line>, lo: nat, m: nat, hi: nat)
    requires lo <= m <= hi && Ordered(a) && Ordered(b) && RanksIn(a, lo, m) && RanksIn(b, m, hi)
    ensures Ordered(a + b) && RanksIn(a + b, lo, hi)
  {
    forall i | |a| <= i < |a + b| ensures (a + b)[i] == b[i - |a|] {}
  }

  /** The line `l` when `present`, otherwise nothing. */
  function OptLine(present: bool, l: Line): seq<Line> {
    if present then [l] else []
  }

  /** An optional faithful line: ordered, within its ranks, holding its
      kind exactly when present. */
  lemma OptLineFacts(s: Slot, present: bool, l: Line, lo: nat, hi: nat)
    requires l.value == Content(s, l.kind) && lo <= Rank(l.kind) < hi
    ensures Ordered(OptLine(present, l)) && RanksIn(OptLine(present, l), lo, hi)
    ensures Faithful(s, OptLine(present, l))
    ensures forall k :: Has(OptLine(present, l), k) <==> present && k == l.kind
  {
    HasSingle(l);
  }

  /** A faithful line put in front of a faithful run of higher kinds. */
  lemma Cons(s: Slot, head: Line, rest: seq<Line>, lo: nat, hi: nat)
    requires head.value == Content(s, head.kind) && lo <= Rank(head.kind) < hi
    requires Ordered(rest) && RanksIn(rest, Rank(head.kind) + 1, hi) && Faithful(s, rest)
    ensures Ordered([head] + rest) && RanksIn([head] + rest, lo, hi) && Faithful(s, [head] + rest)
    ensures forall k :: Has([head] + rest, k) <==> k == head.kind || Has(rest, k)
  {
    HasSingle(head);
    HasConcat([head], rest);
    assert Faithful(s, [head]);
    FaithfulConcat(s, [head], rest);
  }

  /** The Service Category and No. of Units lines of the resolved sub-task. */
  function DetailLines(s: Slot): (ls: seq<Line>)
    requires s.detail.Some?
    ensures Ordered(ls) && RanksIn(ls, 3, 5) && Faithful(s, ls)
    ensures Has(ls, ServiceCategory) <==> Truthy(s.detail.value.category)
    ensures Has(ls, Units) <==> Truthy(s.detail.value.units)
  {
    var d := s.detail.value;
    var category := OptLine(Truthy(d.category), Line(ServiceCategory, Format(d.category)));
    var units := OptLine(Truthy(d.units), Line(Units, Format(d.units)));
    OptLineFacts(s, Truthy(d.category), Line(ServiceCategory, Format(d.category)), 3, 4);
    OptLineFacts(s, Truthy(d.units), Line(Units, Format(d.units)), 4, 5);
    OrderedConcat(category, units, 3, 4, 5);
    FaithfulConcat(s, category, units);
    HasConcat(category, units);
    category + units
  }

  /** The Sub Task line and what follows it, written only under a parent task. */
  function SubLines(s: Slot): (ls: seq<Line>)
    requires Truthy(s.parent)
    ensures Ordered(ls) && RanksIn(ls, 2, 5) && Faithful(s, ls)
    ensures Has(ls, SubTask) == Emitted(s, SubTask)
    ensures Has(ls, ServiceCategory) == Emitted(s, ServiceCategory)
    ensures Has(ls, Units) == Emitted(s, Units)
  {
    if !Truthy(s.sub) then []
    else
      var head := Line(SubTask, Format(s.sub));
      var details := if s.detail.Some? then DetailLines(s) else [];
      Cons(s, head, details, 2, 5);
      [head] + details
  }

  /** The Parent Task line and what follows it. */
  function ParentLines(s: Slot): (ls: seq<Line>)
    ensures Ordered(ls) && RanksIn(ls, 1, 5) && Faithful(s, ls)
    ensures Has(ls, ParentTask)
    ensures Has(ls, SubTask) == Emitted(s, SubTask)
    ensures Has(ls, ServiceCategory) == Emitted(s, ServiceCategory)
    ensures Has(ls, Units) == Emitted(s, Units)
  {
    if !Truthy(s.parent) then
      var only := Line(ParentTask, MissingParent);
      Cons(s, only, [], 1, 5);
      assert [only] + [] == [only];
      [only]
    else
      var head := Line(ParentTask, Format(s.parent));
      var sub := SubLines(s);
      Cons(s, head, sub, 1, 5);
      [head] + sub
  }

  function RoleLines(s: Slot): seq<Line> {
    OptLine(Truthy(s.role), Line(Role, Format(s.role)))
  }

  function RangeLines(s: Slot): seq<Line> {
    OptLine(s.range != "", Line(DateRange, s.range))
  }

  /** All lines of a block, in the order `build_morning_text` appends them. */
  function SlotLines(s: Slot): seq<Line> {
    RoleLines(s) + ParentLines(s) + RangeLines(s)
  }

  lemma SlotLinesOrdered(s: Slot)
    ensures Ordered(SlotLines(s)) && Faithful(s, SlotLines(s))
  {
    var role, parent, range := RoleLines(s), ParentLines(s), RangeLines(s);
    OptLineFacts(s, Truthy(s.role), Line(Role, Format(s.role)), 0, 1);
    OptLineFacts(s, s.range != "", Line(DateRange, s.range), 5, 6);
    FaithfulConcat(s, role, parent);
    FaithfulConcat(s, role + parent, range);
    OrderedConcat(role, parent, 0, 1, 5);
    OrderedConcat(role + parent, range, 0, 5, 6);
  }

  lemma SlotLinesHas(s: Slot)
    ensures forall k :: Has(SlotLines(s), k) <==> Emitted(s, k)
  {
    var role, parent, range := RoleLines(s), ParentLines(s), RangeLines(s);
    OptLineFacts(s, Truthy(s.role), Line(Role, Format(s.role)), 0, 1);
    OptLineFacts(s, s.range != "", Line(DateRange, s.range), 5, 6);
    HasConcat(role, parent);
    HasConcat(role + parent, range);
    HasWithinRanks(parent, 1, 5);
    forall k ensures Has(SlotLines(s), k) <==> Emitted(s, k) {
      assert Has(SlotLines(s), k) <==> Has(role, k) || Has(parent, k) || Has(range, k);
      if k == Role || k == DateRange {
        assert !Has(parent, k);
      }
    }
  }

  /** The block's line rules: a line of each kind exactly when its source
      value is present (the Parent Task line always), kinds in the fixed
      order Role, Parent Task, Sub Task, Service Category, No. of Units,
      Date Range, and each line carrying its own field's text. */
  lemma SlotLinesMeaning(s: Slot)
    ensures Ordered(SlotLines(s))
    ensures forall k :: Has(SlotLines(s), k) <==> Emitted(s, k)
    ensures Faithful(s, SlotLines(s))
  {
    SlotLinesOrdered(s);
    SlotLinesHas(s);
  }

  /** The lines of `build_morning_text` for one planning slot. */
  function MorningLines(task: Record, subtasks: map<Value, Record>): seq<Line> {
    SlotLines(SlotOf(task, subtasks))
  }

  /** `build_morning_text`: the rendered lines joined with newlines. */
  function BuildMorningText(task: Record, subtasks: map<Value, Record>): (r: string)
    ensures r != ""
  {
    var ls := MorningLines(task, subtasks);
    SlotLinesMeaning(SlotOf(task, subtasks));
    assert Has(ls, ParentTask);
    Join("\n", MapStrings(ls, RenderLine))
  }

  /** Without a parent task name (no relation, or a relation whose label is
      falsy, such as `[5, ""]` or `[5, False]`) the block prints the
      placeholder and no sub-task details, whatever the sub-task fields hold. */
  lemma MissingParentHidesSubtask(task: Record, subtasks: map<Value, Record>)
    requires !Truthy(FieldName(Get(task, "x_studio_parent_task")))
    ensures var ls := MorningLines(task, subtasks);
      !Has(ls, SubTask) && !Has(ls, ServiceCategory) && !Has(ls, Units) &&
      exists i :: 0 <= i < |ls| && ls[i] == Line(ParentTask, MissingParent)
  {
    var s := SlotOf(task, subtasks);
    SlotLinesMeaning(s);
    var ls := SlotLines(s);
    assert Has(ls, ParentTask);
    var i :| 0 <= i < |ls| && ls[i].kind == ParentTask;
    assert ls[i].value == MissingParent;
  }


  /** When no field text holds a newline, splitting the block at newlines
      gives back its lines one by one. */
  lemma {:induction false} MorningTextSplits(task: Record, subtasks: map<Value, Record>)
    requires forall l :: l in MorningLines(task, subtasks) ==> '\n' !in l.value
    ensures Split(BuildMorningText(task, subtasks), '\n') == MapStrings(MorningLines(task, subtasks), RenderLine)
  {
    RenderedBlock(task, subtasks);
    SplitJoin(MapStrings(MorningLines(task, subtasks), RenderLine), '\n');
    assert ['\n'] == "\n";
  }

  /** The block is its rendered lines joined with newlines; there is at
      least one, and none holds a newline when no field text does. */
  lemma RenderedBlock(task: Record, subtasks: map<Value, Record>)
    requires forall l :: l in MorningLines(task, subtasks) ==> '\n' !in l.value
    ensures var rs := MapStrings(MorningLines(task, subtasks), RenderLine);
      rs != [] && BuildMorningText(task, subtasks) == Join("\n", rs) &&
      forall i :: 0 <= i < |rs| ==> '\n' !in rs[i]
  {
    var ls := MorningLines(task, subtasks);
    SlotLinesMeaning(SlotOf(task, subtasks));
    assert Has(ls, ParentTask);
    var rs := MapStrings(ls, RenderLine);
    forall i | 0 <= i < |rs| ensures '\n' !in rs[i] {
      assert ls[i] in ls;
      assert rs[i] == RenderLine(ls[i]);
    }
  }
}
