/** The text of one recap entry in the recap report
    (`build_recap_notes_text`). */
module Recap {
  import opened Values
  import opened Text

  /** The kinds of line a recap entry can hold, in the order they are written. */
  datatype Kind = ParentTask | SubTask | Shift | RecapCategory | Comment | Created

  function Rank(k: Kind): nat {
    match k
    case ParentTask => 0
    case SubTask => 1
    case Shift => 2
    case RecapCategory => 3
    case Comment => 4
    case Created => 5
  }

  /** Every kind, in the order the entry lists them. */
  const Order: seq<Kind> := [ParentTask, SubTask, Shift, RecapCategory, Comment, Created]

  /** The label in front of a line; none spans two lines. */
  function Label(k: Kind): (r: string)
    ensures '\n' !in r
  {
    match k
    case ParentTask => "Parent Task"
    case SubTask => "Sub Task"
    case Shift => "Shift"
    case RecapCategory => "Recap Category"
    case Comment => "Comment"
    case Created => "Date & Time"
  }

  /** The `x_recaps` field each line reads. */
  function Field(k: Kind): string {
    match k
    case ParentTask => "x_studio_parent_task"
    case SubTask => "x_studio_sub_task"
    case Shift => "x_studio_shift"
    case RecapCategory => "x_studio_recap_cat"
    case Comment => "x_studio_designer_summary"
    case Created => "create_date"
  }

  /** The two relation fields need a `[id, name]` pair; the rest a truthy value. */
  predicate IsRelationKind(k: Kind) {
    k == ParentTask || k == SubTask
  }

  datatype Line = Line(kind: Kind, value: string)

  /** A line as the block prints it: `Label: value`. */
  function RenderLine(l: Line): string {
    LabelledLine(Label(l.kind), l.value)
  }

  /** When the entry has a line of kind `k`. */
  predicate Present(rec: Record, k: Kind) {
    if IsRelationKind(k) then IsRelation(Get(rec, Field(k)))
    else Truthy(GetOr(rec, Field(k), Str("")))
  }

  /** What a line of kind `k` says after its label: the relation's display
      name, or the field's value as written (the creation time verbatim). */
  function Content(rec: Record, k: Kind): string {
    var v := Get(rec, Field(k));
    if IsRelationKind(k) then (if IsRelation(v) then Format(v.items[1]) else "")
    else Format(GetOr(rec, Field(k), Str("")))
  }

  predicate Ordered(ls: seq<Line>) {
    forall i, j :: 0 <= i < j < |ls| ==> Rank(ls[i].kind) < Rank(ls[j].kind)
  }

  predicate Has(ls: seq<Line>, k: Kind) {
    exists i :: 0 <= i < |ls| && ls[i].kind == k
  }

  predicate Faithful(rec: Record, ls: seq<Line>) {
    forall i :: 0 <= i < |ls| ==> ls[i].value == Content(rec, ls[i].kind)
  }

  /** The lines for the kinds `ks`, in that order, each only when present. */
  function LinesFor(rec: Record, ks: seq<Kind>): seq<Line> {
    if ks == [] then []
    else
      (if Present(rec, ks[0]) then [Line(ks[0], Content(rec, ks[0]))] else []) + LinesFor(rec, ks[1..])
  }

  predicate Increasing(ks: seq<Kind>) {
    forall i, j :: 0 <= i < j < |ks| ==> Rank(ks[i]) < Rank(ks[j])
  }

  /** Each line drawn from `ks` carries its field's text. */
  lemma {:induction false} LinesForFaithful(rec: Record, ks: seq<Kind>)
    ensures Faithful(rec, LinesFor(rec, ks))
  {
    if ks != [] {
      LinesForFaithful(rec, ks[1..]);
      var rest := LinesFor(rec, ks[1..]);
      if Present(rec, ks[0]) {
        FaithfulCons(rec, Line(ks[0], Content(rec, ks[0])), rest);
      }
    }
  }

  /** Prepending a line with its field's text keeps the lines faithful. */
  lemma FaithfulCons(rec: Record, x: Line, rest: seq<Line>)
    requires x.value == Content(rec, x.kind) && Faithful(rec, rest)
    ensures Faithful(rec, [x] + rest)
  {
    forall i | 0 <= i < |[x] + rest| ensures ([x] + rest)[i].value == Content(rec, ([x] + rest)[i].kind) {
      if i > 0 { assert ([x] + rest)[i] == rest[i - 1]; }
    }
  }

  /** A kind occurs after prepending a line when it is that line's or occurs
      in the rest. */
  lemma HasCons(x: Line, rest: seq<Line>)
    ensures forall k :: Has([x] + rest, k) <==> k == x.kind || Has(rest, k)
  {
    forall k ensures Has([x] + rest, k) <==> k == x.kind || Has(rest, k) {
      if Has(rest, k) {
        var i :| 0 <= i < |rest| && rest[i].kind == k;
        assert ([x] + rest)[i + 1].kind == k;
      }
      if Has([x] + rest, k) {
        var i :| 0 <= i < |[x] + rest| && ([x] + rest)[i].kind == k;
        if i > 0 { assert rest[i - 1].kind == k; }
      }
      assert ([x] + rest)[0] == x;
    }
  }

  /** A line of kind `k` is drawn from `ks` exactly when `k` is listed there
      and its field is set. */
  lemma {:induction false} LinesForHas(rec: Record, ks: seq<Kind>)
    ensures forall k :: Has(LinesFor(rec, ks), k) <==> k in ks && Present(rec, k)
  {
    if ks != [] {
      LinesForHas(rec, ks[1..]);
      var rest := LinesFor(rec, ks[1..]);
      assert ks == [ks[0]] + ks[1..];
      if Present(rec, ks[0]) {
        HasCons(Line(ks[0], Content(rec, ks[0])), rest);
      } else {
        assert LinesFor(rec, ks) == rest;
      }
    }
  }

  /** Lines drawn from increasing kinds come out in increasing order. */
  lemma {:induction false} LinesForOrdered(rec: Record, ks: seq<Kind>)
    requires Increasing(ks)
    ensures Ordered(LinesFor(rec, ks))
  {
    if ks != [] {
      LinesForOrdered(rec, ks[1..]);
      LinesForKinds(rec, ks[1..]);
      var rest := LinesFor(rec, ks[1..]);
      if Present(rec, ks[0]) {
        var x := Line(ks[0], Content(rec, ks[0]));
        forall i | 0 <= i < |rest| ensures Rank(x.kind) < Rank(rest[i].kind) {
          assert rest[i] in rest;
          var j :| 0 <= j < |ks[1..]| && ks[1..][j] == rest[i].kind;
          assert ks[1 + j] == rest[i].kind;
        }
        OrderedCons(x, rest);
        assert LinesFor(rec, ks) == [x] + rest;
      } else {
        assert LinesFor(rec, ks) == [] + rest == rest;
      }
    }
  }

  /** Every line drawn from `ks` has one of those kinds. */
  lemma {:induction false} LinesForKinds(rec: Record, ks: seq<Kind>)
    ensures forall l :: l in LinesFor(rec, ks) ==> l.kind in ks
  {
    if ks != [] {
      LinesForKinds(rec, ks[1..]);
      var rest := LinesFor(rec, ks[1..]);
      forall l | l in LinesFor(rec, ks) ensures l.kind in ks {
        if l in rest {
          var j :| 0 <= j < |ks[1..]| && ks[1..][j] == l.kind;
          assert ks[1 + j] == l.kind;
        }
      }
    }
  }

  /** A line of lower rank put in front of ordered lines keeps them ordered. */
  lemma OrderedCons(x: Line, rest: seq<Line>)
    requires Ordered(rest)
    requires forall i :: 0 <= i < |rest| ==> Rank(x.kind) < Rank(rest[i].kind)
    ensures Ordered([x] + rest)
  {
    forall i, j | 0 <= i < j < |[x] + rest| ensures Rank(([x] + rest)[i].kind) < Rank(([x] + rest)[j].kind) {
      assert ([x] + rest)[j] == rest[j - 1];
      if i > 0 { assert ([x] + rest)[i] == rest[i - 1]; }
    }
  }

  /** The lines of `build_recap_notes_text`: Parent Task, Sub Task, Shift,
      Recap Category, Comment and Date & Time, each only when its field is set. */
  function RecapLines(rec: Record): seq<Line> {
    LinesFor(rec, Order)
  }

  /** One line per present field, in the fixed order, with the field's text. */
  lemma RecapLinesMeaning(rec: Record)
    ensures Ordered(RecapLines(rec)) && Faithful(rec, RecapLines(rec))
    ensures forall k :: Has(RecapLines(rec), k) <==> Present(rec, k)
  {
    OrderLists();
    LinesForFaithful(rec, Order);
    LinesForHas(rec, Order);
    LinesForOrdered(rec, Order);
  }

  /** `Order` lists every kind, by increasing rank. */
  lemma OrderLists()
    ensures Increasing(Order)
    ensures forall k :: k in Order
  {
    forall k ensures k in Order { assert Order[Rank(k)] == k; }
  }

  /** The entry has no line exactly when none of its fields is set. */
  lemma RecapLinesEmpty(rec: Record)
    ensures RecapLines(rec) == [] <==> forall k :: !Present(rec, k)
  {
    RecapLinesMeaning(rec);
    var ls := RecapLines(rec);
    if ls != [] {
      assert Has(ls, ls[0].kind);
    }
  }

  /** `build_recap_notes_text`: the rendered lines joined with newlines; empty
      exactly when the recap sets none of the six fields. */
  function BuildRecapText(rec: Record): (r: string)
    ensures r == "" <==> forall k :: !Present(rec, k)
  {
    var ls := RecapLines(rec);
    RecapLinesEmpty(rec);
    var rs := MapStrings(ls, RenderLine);
    assert |ls| > 0 ==> |rs[0]| > 0;
    Join("\n", rs)
  }


  /** When no field text holds a newline and some field is set, splitting the
      entry at newlines gives back its lines one by one. */
  lemma {:induction false} RecapTextSplits(rec: Record)
    requires RecapLines(rec) != []
    requires forall l :: l in RecapLines(rec) ==> '\n' !in l.value
    ensures Split(BuildRecapText(rec), '\n') == MapStrings(RecapLines(rec), RenderLine)
  {
    var ls := RecapLines(rec);
    var rs := MapStrings(ls, RenderLine);
    forall i | 0 <= i < |rs| ensures '\n' !in rs[i] {
      assert ls[i] in ls;
      assert rs[i] == RenderLine(ls[i]);
    }
    SplitJoin(rs, '\n');
    assert ['\n'] == "\n";
  }
}
