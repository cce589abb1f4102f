/** What a prefix-notation domain means to the Odoo server: each operator
    takes the terms that follow it (`'|'` and `'&'` two, `'!'` one), and the
    top-level terms are ANDed. Leaves are judged by an oracle `leaf`, which
    stands for the server's evaluation of one `(field, operator, value)`
    condition on one record. */
module DomainEval {
  import opened Wrappers
  import opened Values
  import opened Domains

  /** Where the term starting at position `i` ends, or None when the tokens
      from `i` on do not form a complete term. */
  function TermEnd(d: Domain, i: nat): (r: Option<nat>)
    ensures r.Some? ==> i < r.value <= |d|
    decreases |d| - i
  {
    if i >= |d| then None
    else match d[i]
      case Leaf(_, _, _) => Some(i + 1)
      case Not => TermEnd(d, i + 1)
      case _ =>
        match TermEnd(d, i + 1)
        case None => None
        case Some(j) => TermEnd(d, j)
  }

  /** Truth value of the complete term starting at `i`. */
  function EvalTerm(d: Domain, i: nat, leaf: Token -> bool): bool
    requires TermEnd(d, i).Some?
    decreases |d| - i
  {
    match d[i]
    case Leaf(_, _, _) => leaf(d[i])
    case Not => !EvalTerm(d, i + 1, leaf)
    case And => EvalTerm(d, i + 1, leaf) && EvalTerm(d, TermEnd(d, i + 1).value, leaf)
    case Or => EvalTerm(d, i + 1, leaf) || EvalTerm(d, TermEnd(d, i + 1).value, leaf)
  }

  /** The tokens from `i` to the end are a sequence of complete terms. */
  predicate WfFrom(d: Domain, i: nat)
    requires i <= |d|
    decreases |d| - i
  {
    i == |d| || (TermEnd(d, i).Some? && WfFrom(d, TermEnd(d, i).value))
  }

  /** The terms from `i` on, ANDed; no term at all means "every record". */
  function EvalFrom(d: Domain, i: nat, leaf: Token -> bool): bool
    requires i <= |d| && WfFrom(d, i)
    decreases |d| - i
  {
    if i == |d| then true else EvalTerm(d, i, leaf) && EvalFrom(d, TermEnd(d, i).value, leaf)
  }

  predicate WellFormed(d: Domain) {
    WfFrom(d, 0)
  }

  /** Whether a record the oracle `leaf` describes matches the domain. */
  function Matches(d: Domain, leaf: Token -> bool): bool
    requires WellFormed(d)
  {
    EvalFrom(d, 0, leaf)
  }

  /** `d` is exactly one complete term. */
  predicate SingleTerm(d: Domain) {
    TermEnd(d, 0) == Some(|d|)
  }

  // ---------------------------------------------------------------------
  // A term means the same wherever its tokens are copied
  // ---------------------------------------------------------------------

  /** `e` from `k` on repeats the tokens of `d` from `i` up to `j`. */
  predicate Copies(d: Domain, i: nat, j: nat, e: Domain, k: nat) {
    i <= j <= |d| && k + (j - i) <= |e| && forall t :: i <= t < j ==> e[k + (t - i)] == d[t]
  }

  /** A copy of a range also copies every sub-range. */
  lemma CopiesRange(d: Domain, i: nat, j: nat, e: Domain, k: nat, i': nat, j': nat)
    requires Copies(d, i, j, e, k) && i <= i' <= j' <= j
    ensures Copies(d, i', j', e, k + (i' - i))
  {
    forall t | i' <= t < j'
      ensures e[k + (i' - i) + (t - i')] == d[t]
    {
      assert k + (i' - i) + (t - i') == k + (t - i);
    }
  }

  /** If `e` from `k` on repeats the tokens of the term of `d` at `i`, then
      `e` has a term at `k` of the same length and the same truth value. */
  lemma {:induction false} TermShift(d: Domain, i: nat, e: Domain, k: nat, leaf: Token -> bool)
    requires TermEnd(d, i).Some?
    requires Copies(d, i, TermEnd(d, i).value, e, k)
    ensures TermEnd(e, k) == Some(k + (TermEnd(d, i).value - i))
    ensures EvalTerm(e, k, leaf) == EvalTerm(d, i, leaf)
    decreases |d| - i, 1
  {
    assert e[k + (i - i)] == d[i];
    if d[i].Not? {
      TermShiftNot(d, i, e, k, leaf);
    } else if d[i].And? || d[i].Or? {
      TermShiftBinary(d, i, e, k, leaf);
    }
  }

  /** `TermShift` at a negation. */
  lemma {:induction false} TermShiftNot(d: Domain, i: nat, e: Domain, k: nat, leaf: Token -> bool)
    requires TermEnd(d, i).Some? && d[i] == Not
    requires Copies(d, i, TermEnd(d, i).value, e, k)
    ensures TermEnd(e, k) == Some(k + (TermEnd(d, i).value - i))
    ensures EvalTerm(e, k, leaf) == EvalTerm(d, i, leaf)
    decreases |d| - i, 0
  {
    var j := TermEnd(d, i).value;
    assert e[k + (i - i)] == d[i];
    NotTerm(d, i, leaf);
    CopiesRange(d, i, j, e, k, i + 1, j);
    TermShift(d, i + 1, e, k + 1, leaf);
    NotTerm(e, k, leaf);
  }

  /** `TermShift` at `'&'` or `'|'`. */
  lemma {:induction false} TermShiftBinary(d: Domain, i: nat, e: Domain, k: nat, leaf: Token -> bool)
    requires TermEnd(d, i).Some? && (d[i] == And || d[i] == Or)
    requires Copies(d, i, TermEnd(d, i).value, e, k)
    ensures TermEnd(e, k) == Some(k + (TermEnd(d, i).value - i))
    ensures EvalTerm(e, k, leaf) == EvalTerm(d, i, leaf)
    decreases |d| - i, 0
  {
    var j := TermEnd(d, i).value;
    var m := TermEnd(d, i + 1).value;
    BinaryTerm(d, i, leaf);
    var km := k + (m - i);
    ShiftPart(d, i, j, e, k, i + 1, m, k + 1, leaf);
    ShiftPart(d, i, j, e, k, m, j, km, leaf);
    assert e[k + (i - i)] == d[i];
    BinaryAt(e, k, km, km + (j - m), leaf);
  }

  /** The term at `a` inside a copied range lands at the matching place
      `ka` of the copy. */
  lemma {:induction false} ShiftPart(d: Domain, i: nat, j: nat, e: Domain, k: nat, a: nat, b: nat, ka: nat, leaf: Token -> bool)
    requires Copies(d, i, j, e, k) && i < a <= b <= j && ka == k + (a - i)
    requires TermEnd(d, a) == Some(b)
    ensures TermEnd(e, ka) == Some(ka + (b - a))
    ensures EvalTerm(e, ka, leaf) == EvalTerm(d, a, leaf)
    decreases |d| - a, 2
  {
    CopiesRange(d, i, j, e, k, a, b);
    TermShift(d, a, e, ka, leaf);
  }

  /** One step of `TermEnd` and `EvalTerm` at a negation. */
  lemma NotTerm(d: Domain, i: nat, leaf: Token -> bool)
    requires i < |d| && d[i] == Not && TermEnd(d, i + 1).Some?
    ensures TermEnd(d, i) == TermEnd(d, i + 1)
    ensures EvalTerm(d, i, leaf) == !EvalTerm(d, i + 1, leaf)
  {
  }

  /** `BinaryTerm` with the ends of both operands given. */
  lemma BinaryAt(d: Domain, i: nat, m: nat, j: nat, leaf: Token -> bool)
    requires i < |d| && (d[i] == And || d[i] == Or)
    requires TermEnd(d, i + 1) == Some(m) && TermEnd(d, m) == Some(j)
    ensures TermEnd(d, i) == Some(j)
    ensures EvalTerm(d, i, leaf) ==
            if d[i] == And then EvalTerm(d, i + 1, leaf) && EvalTerm(d, m, leaf)
            else EvalTerm(d, i + 1, leaf) || EvalTerm(d, m, leaf)
  {
  }

  /** One step of `TermEnd` and `EvalTerm` at a binary operator. */
  lemma BinaryTerm(d: Domain, i: nat, leaf: Token -> bool)
    requires i < |d| && (d[i] == And || d[i] == Or)
    requires TermEnd(d, i + 1).Some? && TermEnd(d, TermEnd(d, i + 1).value).Some?
    ensures TermEnd(d, i) == TermEnd(d, TermEnd(d, i + 1).value)
    ensures EvalTerm(d, i, leaf) ==
            if d[i] == And then EvalTerm(d, i + 1, leaf) && EvalTerm(d, TermEnd(d, i + 1).value, leaf)
            else EvalTerm(d, i + 1, leaf) || EvalTerm(d, TermEnd(d, i + 1).value, leaf)
  {
  }

  /** A domain made of `op` and copies of two single terms is one term. */
  lemma JoinTermsAt(op: Token, a: Domain, b: Domain, r: Domain, leaf: Token -> bool)
    requires op == And || op == Or
    requires SingleTerm(a) && SingleTerm(b)
    requires |r| == 1 + |a| + |b| && r[0] == op
    requires Copies(a, 0, |a|, r, 1) && Copies(b, 0, |b|, r, 1 + |a|)
    ensures SingleTerm(r)
    ensures EvalTerm(r, 0, leaf) ==
            if op == And then EvalTerm(a, 0, leaf) && EvalTerm(b, 0, leaf)
            else EvalTerm(a, 0, leaf) || EvalTerm(b, 0, leaf)
  {
    ShiftSingle(a, r, 1, leaf);
    ShiftSingle(b, r, 1 + |a|, leaf);
    BinaryAt(r, 0, 1 + |a|, |r|, leaf);
  }

  /** `TermShift` for a domain that is one term. */
  lemma ShiftSingle(a: Domain, r: Domain, k: nat, leaf: Token -> bool)
    requires SingleTerm(a) && Copies(a, 0, |a|, r, k)
    ensures TermEnd(r, k) == Some(k + |a|) && EvalTerm(r, k, leaf) == EvalTerm(a, 0, leaf)
  {
    TermShift(a, 0, r, k, leaf);
  }

  /** `'&'` or `'|'` followed by two single terms is a single term
      combining them. */
  lemma JoinTerms(op: Token, a: Domain, b: Domain, leaf: Token -> bool)
    requires op == And || op == Or
    requires SingleTerm(a) && SingleTerm(b)
    ensures SingleTerm([op] + a + b)
    ensures EvalTerm([op] + a + b, 0, leaf) ==
            if op == And then EvalTerm(a, 0, leaf) && EvalTerm(b, 0, leaf)
            else EvalTerm(a, 0, leaf) || EvalTerm(b, 0, leaf)
  {
    var r := [op] + a + b;
    assert Copies(a, 0, |a|, r, 1) by {
      forall t | 0 <= t < |a| ensures r[1 + (t - 0)] == a[t] {}
    }
    assert Copies(b, 0, |b|, r, 1 + |a|) by {
      forall t | 0 <= t < |b| ensures r[1 + |a| + (t - 0)] == b[t] {}
    }
    JoinTermsAt(op, a, b, r, leaf);
  }

  /** The same for a whole run of terms up to the end of the domain. */
  lemma {:induction false} FromShift(d: Domain, i: nat, e: Domain, k: nat, leaf: Token -> bool)
    requires i <= |d| && WfFrom(d, i)
    requires k + (|d| - i) == |e|
    requires Copies(d, i, |d|, e, k)
    ensures WfFrom(e, k)
    ensures EvalFrom(e, k, leaf) == EvalFrom(d, i, leaf)
    decreases |d| - i
  {
    if i < |d| {
      var j := TermEnd(d, i).value;
      CopiesRange(d, i, |d|, e, k, i, j);
      TermShift(d, i, e, k, leaf);
      CopiesRange(d, i, |d|, e, k, j, |d|);
      FromShift(d, j, e, k + (j - i), leaf);
    }
  }

  /** A single term, on its own, is a well-formed domain meaning that term. */
  lemma SingleTermDomain(d: Domain, leaf: Token -> bool)
    requires SingleTerm(d)
    ensures WellFormed(d) && Matches(d, leaf) == EvalTerm(d, 0, leaf)
  {
    assert WfFrom(d, |d|);
    assert EvalFrom(d, |d|, leaf);
  }

  // ---------------------------------------------------------------------
  // combine_domains_or on single terms
  // ---------------------------------------------------------------------

  /** Some domain of `ds` (each a single term) holds. */
  predicate AnyHolds(ds: seq<Domain>, leaf: Token -> bool) {
    exists i :: 0 <= i < |ds| && TermEnd(ds[i], 0).Some? && EvalTerm(ds[i], 0, leaf)
  }

  /** When every input is one complete term, the left fold of `'|'` is one
      complete term that holds exactly when some input holds. */
  lemma {:induction false} CombineSingleTerms(ds: seq<Domain>, leaf: Token -> bool)
    requires |ds| >= 1
    requires forall i :: 0 <= i < |ds| ==> SingleTerm(ds[i])
    ensures SingleTerm(CombineDomainsOr(ds))
    ensures EvalTerm(CombineDomainsOr(ds), 0, leaf) <==> AnyHolds(ds, leaf)
    decreases |ds|
  {
    if |ds| > 1 {
      var n := |ds| - 1;
      var init := ds[..n];
      CombineSingleTerms(init, leaf);
      assert SingleTerm(ds[n]);
      JoinTerms(Or, CombineDomainsOr(init), ds[n], leaf);
      assert CombineDomainsOr(ds) == [Or] + CombineDomainsOr(init) + ds[n];
      OrOfAnyHolds(ds, leaf);
    }
  }

  /** Splitting `AnyHolds` into the prefix and the last domain. */
  lemma OrOfAnyHolds(ds: seq<Domain>, leaf: Token -> bool)
    requires |ds| > 1
    ensures AnyHolds(ds, leaf) <==>
            AnyHolds(ds[..|ds| - 1], leaf) || (TermEnd(ds[|ds| - 1], 0).Some? && EvalTerm(ds[|ds| - 1], 0, leaf))
  {
    var n := |ds| - 1;
    var init := ds[..n];
    if AnyHolds(init, leaf) {
      var i :| 0 <= i < |init| && TermEnd(init[i], 0).Some? && EvalTerm(init[i], 0, leaf);
      assert init[i] == ds[i];
    }
    if AnyHolds(ds, leaf) {
      var i :| 0 <= i < |ds| && TermEnd(ds[i], 0).Some? && EvalTerm(ds[i], 0, leaf);
      if i < n {
        assert init[i] == ds[i];
      }
    }
  }

  // ---------------------------------------------------------------------
  // combine_domains_or on any favourite domains
  // ---------------------------------------------------------------------

  /** A run of terms followed by a well-formed domain is still a run of
      terms, meaning both. */
  lemma {:induction false} FromConcat(c: Domain, i: nat, d: Domain, leaf: Token -> bool)
    requires i <= |c| && WfFrom(c, i) && WellFormed(d)
    ensures WfFrom(c + d, i)
    ensures EvalFrom(c + d, i, leaf) == (EvalFrom(c, i, leaf) && Matches(d, leaf))
    decreases |c| - i
  {
    var e := c + d;
    if i == |c| {
      assert Copies(d, 0, |d|, e, |c|) by {
        forall t | 0 <= t < |d| ensures e[|c| + (t - 0)] == d[t] {}
      }
      FromShift(d, 0, e, |c|, leaf);
      FromEnd(c, leaf);
    } else {
      var j := TermEnd(c, i).value;
      assert Copies(c, i, j, e, i) by {
        forall t | i <= t < j ensures e[i + (t - i)] == c[t] {}
      }
      TermShift(c, i, e, i, leaf);
      FromConcat(c, j, d, leaf);
      FromStep(e, i, leaf);
      FromStep(c, i, leaf);
    }
  }

  /** `'|'` in front of a run of at least two terms joins the first two and
      leaves the rest a run of terms. */
  lemma OrPrefixWf(r: Domain)
    requires WellFormed(r) && r != [] && TermEnd(r, 0).value < |r|
    ensures WellFormed([Or] + r)
  {
    var leaf := (t: Token) => true;
    var j1 := TermEnd(r, 0).value;
    assert WfFrom(r, j1);
    var j2 := TermEnd(r, j1).value;
    assert WfFrom(r, j2);
    SliceTerm(r, 0, leaf);
    SliceTerm(r, j1, leaf);
    var t := [Or] + r[..j1] + r[j1..j2];
    JoinTerms(Or, r[..j1], r[j1..j2], leaf);
    SingleTermDomain(t, leaf);
    var rest := r[j2..];
    assert Copies(r, j2, |r|, rest, 0) by {
      forall x | j2 <= x < |r| ensures rest[0 + (x - j2)] == r[x] {}
    }
    FromShift(r, j2, rest, 0, leaf);
    FromConcat(t, 0, rest, leaf);
    ConsSplit(Or, r, j1, j2);
  }

  lemma ConsAppend<X>(x: X, a: seq<X>, b: seq<X>)
    ensures [x] + a + b == [x] + (a + b)
  {
  }

  /** A sequence with one element in front, cut at two places. */
  lemma ConsSplit<X>(x: X, s: seq<X>, i: nat, j: nat)
    requires i <= j <= |s|
    ensures [x] + s == ([x] + s[..i] + s[i..j]) + s[j..]
  {
    assert s == s[..i] + s[i..j] + s[j..];
  }

  /** The left fold of `'|'`, as written, turns non-empty well-formed
      domains into a well-formed domain, whatever their number of terms. */
  lemma {:induction false} CombineWellFormed(ds: seq<Domain>)
    requires forall i :: 0 <= i < |ds| ==> ds[i] != [] && WellFormed(ds[i])
    ensures WellFormed(CombineDomainsOr(ds))
    ensures ds != [] ==> CombineDomainsOr(ds) != []
    decreases |ds|
  {
    var anyLeaf := (t: Token) => true;
    if |ds| == 0 {
      assert WfFrom([], 0);
    } else if |ds| > 1 {
      var n := |ds| - 1;
      var init := ds[..n];
      assert forall i :: 0 <= i < n ==> init[i] == ds[i];
      CombineWellFormed(init);
      var c := CombineDomainsOr(init);
      var r := c + ds[n];
      FromConcat(c, 0, ds[n], anyLeaf);
      var j := TermEnd(c, 0).value;
      assert Copies(c, 0, j, r, 0) by {
        forall t | 0 <= t < j ensures r[0 + (t - 0)] == c[t] {}
      }
      TermShift(c, 0, r, 0, anyLeaf);
      OrPrefixWf(r);
      assert CombineDomainsOr(ds) == [Or] + c + ds[n];
      ConsAppend(Or, c, ds[n]);
    }
  }

  // ---------------------------------------------------------------------
  // Finding: multi-term favourite domains are mis-grouped
  // ---------------------------------------------------------------------

  const LeafA: Token := Leaf("a", "=", Int(1))
  const LeafB: Token := Leaf("b", "=", Int(1))
  const LeafC: Token := Leaf("c", "=", Int(1))

  /** A record on which only the condition of `LeafC` holds. */
  function OnlyC(t: Token): bool {
    t == LeafC
  }

  /** Favourite `[A, B]` (implicitly `A and B`) ORed with favourite `[C]`
      becomes `['|', A, B, C]`, which the server reads as `(A or B) and C`:
      a record matching the second favourite is not selected. */
  lemma CombineMisgroupsImplicitAnd()
    ensures CombineDomainsOr([[LeafA, LeafB], [LeafC]]) == [Or, LeafA, LeafB, LeafC]
    ensures WellFormed([LeafC]) && Matches([LeafC], OnlyC)
    ensures WellFormed([Or, LeafA, LeafB, LeafC])
    ensures !Matches([Or, LeafA, LeafB, LeafC], OnlyC)
  {
    CombineExample();
    OnlyCMatchesC();
    MisgroupedMisses();
  }

  /** The fold on the example favourites. */
  lemma CombineExample()
    ensures CombineDomainsOr([[LeafA, LeafB], [LeafC]]) == [Or, LeafA, LeafB, LeafC]
  {
    assert CombineDomainsOr([[LeafA, LeafB], [LeafC]]) == [Or] + [LeafA, LeafB] + [LeafC];
  }

  /** The second favourite alone selects the record. */
  lemma OnlyCMatchesC()
    ensures WellFormed([LeafC]) && Matches([LeafC], OnlyC)
  {
    var c: Domain := [LeafC];
    LeafTerm(c, 0, OnlyC);
    FromEnd(c, OnlyC);
    FromStep(c, 0, OnlyC);
  }

  /** The combined domain does not select it. */
  lemma MisgroupedMisses()
    ensures WellFormed([Or, LeafA, LeafB, LeafC])
    ensures !Matches([Or, LeafA, LeafB, LeafC], OnlyC)
  {
    var d: Domain := [Or, LeafA, LeafB, LeafC];
    LeafTerm(d, 1, OnlyC);
    LeafTerm(d, 2, OnlyC);
    LeafTerm(d, 3, OnlyC);
    BinaryAt(d, 0, 2, 3, OnlyC);
    FromEnd(d, OnlyC);
    FromStep(d, 3, OnlyC);
    FromStep(d, 0, OnlyC);
  }

  /** The end of a domain is an empty run of terms, which holds. */
  lemma FromEnd(d: Domain, leaf: Token -> bool)
    ensures WfFrom(d, |d|) && EvalFrom(d, |d|, leaf)
  {
  }

  /** One step of `WfFrom` and `EvalFrom`. */
  lemma FromStep(d: Domain, i: nat, leaf: Token -> bool)
    requires i < |d| && TermEnd(d, i).Some? && WfFrom(d, TermEnd(d, i).value)
    ensures WfFrom(d, i)
    ensures EvalFrom(d, i, leaf) == (EvalTerm(d, i, leaf) && EvalFrom(d, TermEnd(d, i).value, leaf))
  {
  }

  /** One step of `TermEnd` and `EvalTerm` at a leaf. */
  lemma LeafTerm(d: Domain, i: nat, leaf: Token -> bool)
    requires i < |d| && d[i].Leaf?
    ensures TermEnd(d, i) == Some(i + 1) && EvalTerm(d, i, leaf) == leaf(d[i])
  {
  }

  // ---------------------------------------------------------------------
  // Corrected combination: normalise each domain to one term first
  // ---------------------------------------------------------------------

  /** The terms of `d` from `i` on, folded into one term with right-nested
      `'&'`; the tokens are returned unchanged where they are not a run of
      complete terms. */
  function NormalizeFrom(d: Domain, i: nat): (r: Domain)
    requires i <= |d|
    ensures |r| >= |d| - i
    decreases |d| - i
  {
    match TermEnd(d, i)
    case None => d[i..]
    case Some(j) => if j == |d| then d[i..] else [And] + d[i..j] + NormalizeFrom(d, j)
  }

  /** A domain written as one term, keeping its meaning (what Odoo's
      `normalize_domain` is for). */
  function NormalizeDomain(d: Domain): Domain {
    NormalizeFrom(d, 0)
  }

  /** A non-empty run of complete terms normalises to one term with the
      run's meaning. */
  lemma {:induction false} NormalizeFromIsTerm(d: Domain, i: nat, leaf: Token -> bool)
    requires i < |d| && WfFrom(d, i)
    ensures SingleTerm(NormalizeFrom(d, i))
    ensures EvalTerm(NormalizeFrom(d, i), 0, leaf) == EvalFrom(d, i, leaf)
    decreases |d| - i
  {
    var n := NormalizeFrom(d, i);
    var j := TermEnd(d, i).value;
    assert WfFrom(d, j);
    assert EvalFrom(d, i, leaf) == (EvalTerm(d, i, leaf) && EvalFrom(d, j, leaf));
    if j == |d| {
      assert n == d[i..j];
      SliceTerm(d, i, leaf);
      assert EvalFrom(d, j, leaf);
    } else {
      var rest := NormalizeFrom(d, j);
      NormalizeFromIsTerm(d, j, leaf);
      SliceTerm(d, i, leaf);
      JoinTerms(And, d[i..j], rest, leaf);
      assert n == [And] + d[i..j] + rest;
    }
  }

  /** The term of `d` at `i`, cut out, is a single term with the same value. */
  lemma SliceTerm(d: Domain, i: nat, leaf: Token -> bool)
    requires TermEnd(d, i).Some?
    ensures SingleTerm(d[i..TermEnd(d, i).value])
    ensures EvalTerm(d[i..TermEnd(d, i).value], 0, leaf) == EvalTerm(d, i, leaf)
  {
    var j := TermEnd(d, i).value;
    var s := d[i..j];
    assert Copies(d, i, j, s, 0) by {
      forall t | i <= t < j ensures s[0 + (t - i)] == d[t] {}
    }
    TermShift(d, i, s, 0, leaf);
  }

  /** Every non-empty well-formed domain normalises to one term that
      matches exactly the records the domain matches. */
  lemma NormalizePreservesMeaning(d: Domain, leaf: Token -> bool)
    requires d != [] && WellFormed(d)
    ensures SingleTerm(NormalizeDomain(d))
    ensures WellFormed(NormalizeDomain(d))
    ensures Matches(NormalizeDomain(d), leaf) == Matches(d, leaf)
  {
    NormalizeFromIsTerm(d, 0, leaf);
    SingleTermDomain(NormalizeDomain(d), leaf);
  }

  /** The favourites' domain as `combine_domains_or` should build it: each
      favourite normalised to one term, then ORed. */
  function CombineDomainsOrNormalized(ds: seq<Domain>): (r: Domain)
    ensures (forall i :: 0 <= i < |ds| ==> ds[i] != []) ==> (r == [] <==> ds == [])
  {
    var ns := seq(|ds|, i requires 0 <= i < |ds| => NormalizeDomain(ds[i]));
    assert |ds| > 0 && ds[0] != [] ==> ns[0] != [];
    CombineDomainsOr(ns)
  }

  /** The corrected combination matches a record exactly when some
      favourite's domain matches it. */
  lemma CombineNormalizedIsOr(ds: seq<Domain>, leaf: Token -> bool)
    requires |ds| >= 1
    requires forall i :: 0 <= i < |ds| ==> ds[i] != [] && WellFormed(ds[i])
    ensures WellFormed(CombineDomainsOrNormalized(ds))
    ensures Matches(CombineDomainsOrNormalized(ds), leaf) <==>
            exists i :: 0 <= i < |ds| && Matches(ds[i], leaf)
  {
    var ns := seq(|ds|, i requires 0 <= i < |ds| => NormalizeDomain(ds[i]));
    forall i | 0 <= i < |ds|
      ensures SingleTerm(ns[i])
      ensures EvalTerm(ns[i], 0, leaf) == Matches(ds[i], leaf)
    {
      NormalizePreservesMeaning(ds[i], leaf);
      SingleTermDomain(ns[i], leaf);
    }
    CombineSingleTerms(ns, leaf);
    SingleTermDomain(CombineDomainsOr(ns), leaf);
    if Matches(CombineDomainsOrNormalized(ds), leaf) {
      var i :| 0 <= i < |ns| && EvalTerm(ns[i], 0, leaf);
      assert Matches(ds[i], leaf);
    }
    if exists i :: 0 <= i < |ds| && Matches(ds[i], leaf) {
      var i :| 0 <= i < |ds| && Matches(ds[i], leaf);
      assert EvalTerm(ns[i], 0, leaf);
    }
  }

  // ---------------------------------------------------------------------
  // The final query
  // ---------------------------------------------------------------------

  /** The date window is two complete terms, matching inside the window. */
  lemma DateDomainMeaning(field: string, lo: string, hi: string, leaf: Token -> bool)
    ensures WellFormed(DateDomain(field, lo, hi))
    ensures Matches(DateDomain(field, lo, hi), leaf) ==
            (leaf(Leaf(field, ">=", Str(lo))) && leaf(Leaf(field, "<=", Str(hi))))
  {
    var d := DateDomain(field, lo, hi);
    assert TermEnd(d, 0) == Some(1) && TermEnd(d, 1) == Some(2);
    assert WfFrom(d, 2) && WfFrom(d, 1);
    assert EvalFrom(d, 2, leaf);
    assert EvalFrom(d, 1, leaf) == leaf(d[1]);
  }

  /** `['&'] + date + combined` selects exactly the records inside the date
      window that also match the favourites' domain. */
  lemma FinalDomainIsConjunction(field: string, lo: string, hi: string, combined: Domain, leaf: Token -> bool)
    requires WellFormed(combined)
    ensures WellFormed(FinalDomain(DateDomain(field, lo, hi), combined))
    ensures Matches(FinalDomain(DateDomain(field, lo, hi), combined), leaf) ==
            (Matches(DateDomain(field, lo, hi), leaf) && Matches(combined, leaf))
  {
    var date := DateDomain(field, lo, hi);
    DateDomainMeaning(field, lo, hi, leaf);
    if combined != [] {
      var r := FinalDomain(date, combined);
      assert r == [And] + date + combined;
      assert TermEnd(r, 1) == Some(2);
      assert TermEnd(r, 2) == Some(3);
      assert TermEnd(r, 0) == Some(3);
      assert EvalTerm(r, 0, leaf) == (leaf(date[0]) && leaf(date[1]));
      assert Copies(combined, 0, |combined|, r, 3) by {
        forall t | 0 <= t < |combined| ensures r[3 + (t - 0)] == combined[t] {}
      }
      FromShift(combined, 0, r, 3, leaf);
    } else {
      assert WfFrom(combined, 0) && EvalFrom(combined, 0, leaf);
    }
  }
}
