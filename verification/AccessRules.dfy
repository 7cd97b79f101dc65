/** Access security rules: who matches a rule, and which right a list of rules gives. */
module AccessRules {
  import opened Options

  const ASMAXINP := 12

  const DEFAULT := "DEFAULT"

  /** 0 is no access, 1 is read, 2 is write. */
  type Access = a: int | 0 <= a <= 2

  const ASNOACCESS: Access := 0
  const ASWRITE: Access := 2

  /** A calculation over the inputs of a group; dividing by zero makes it fail. */
  datatype Expr = Const(value: real) | Input(i: nat) | Binary(op: Op, left: Expr, right: Expr)

  datatype Op = Plus | Minus | Divide | Less | Same | And

  function Apply(op: Op, a: real, b: real): Option<real> {
    match op
    case Plus => Some(a + b)
    case Minus => Some(a - b)
    case Divide => if b == 0.0 then None else Some(a / b)
    case Less => Some(if a < b then 1.0 else 0.0)
    case Same => Some(if a == b then 1.0 else 0.0)
    case And => Some(if a != 0.0 && b != 0.0 then 1.0 else 0.0)
  }

  function Vars(e: Expr): set<nat> {
    match e
    case Const(_) => {}
    case Input(i) => {i}
    case Binary(_, l, r) => Vars(l) + Vars(r)
  }

  function CalcPerform(e: Expr, v: seq<real>): Option<real>
    requires forall i :: i in Vars(e) ==> i < |v|
  {
    match e
    case Const(x) => Some(x)
    case Input(i) =>
      assert i in Vars(e);
      Some(v[i])
    case Binary(op, l, r) =>
      assert Vars(e) == Vars(l) + Vars(r);
      var (a, b) := (CalcPerform(l, v), CalcPerform(r, v));
      if a.None? || b.None? then None else Apply(op, a.value, b.value)
  }

  /** A calculation only sees the inputs it names. */
  lemma {:induction false} CalcFrame(e: Expr, v: seq<real>, w: seq<real>)
    requires forall i :: i in Vars(e) ==> i < |v| && i < |w| && v[i] == w[i]
    ensures CalcPerform(e, v) == CalcPerform(e, w)
  {
    match e
    case Const(_) =>
    case Input(i) =>
      assert i in Vars(e);
    case Binary(op, l, r) =>
      assert Vars(e) == Vars(l) + Vars(r);
      CalcFrame(l, v, w);
      CalcFrame(r, v, w);
  }

  predicate IsTrue(r: Option<real>) {
    r.Some? && 0.99 < r.value < 1.01
  }

  datatype Rule = Rule(
    access: Access, level: int, inpUsed: set<nat>, result: bool, formula: Option<Expr>,
    uags: seq<string>, hags: seq<string>, trapMask: int)

  datatype Group = Uag(name: string) | Hag(name: string)

  datatype Asg = Asg(
    name: string, inps: seq<nat>, rules: seq<Rule>, memberList: seq<nat>,
    pavalue: seq<real>, inpBad: set<nat>, inpChanged: set<nat>)

  /** Lower case, as host names are compared. */
  function Lower(s: string): (r: string)
    ensures |r| == |s|
    ensures forall i :: 0 <= i < |s| ==> r[i] == if 'A' <= s[i] <= 'Z' then (s[i] as int + 32) as char else s[i]
  {
    seq(|s|, i requires 0 <= i < |s| => if 'A' <= s[i] <= 'Z' then (s[i] as int + 32) as char else s[i])
  }

  datatype Who = Who(level: int, user: string, host: string)

  predicate RuleOk(r: Rule) {
    r.formula.Some? ==> Vars(r.formula.value) <= r.inpUsed && forall i :: i in r.inpUsed ==> i < ASMAXINP
  }

  predicate RulesOk(rules: seq<Rule>) {
    forall k :: 0 <= k < |rules| ==> RuleOk(rules[k])
  }

  predicate AsgOk(g: Asg) {
    && |g.pavalue| == ASMAXINP
    && RulesOk(g.rules)
    && (forall k :: 0 <= k < |g.inps| ==> g.inps[k] < ASMAXINP)
  }

  // ---------------------------------------------------------------- the right a client has

  type Hash = set<(string, Group)>

  predicate InSome(phash: Hash, who: string, groups: seq<Group>) {
    exists k :: 0 <= k < |groups| && (who, groups[k]) in phash
  }

  function Uags(r: Rule): (s: seq<Group>)
    ensures |s| == |r.uags|
  {
    seq(|r.uags|, k requires 0 <= k < |r.uags| => Uag(r.uags[k]))
  }

  function Hags(r: Rule): (s: seq<Group>)
    ensures |s| == |r.hags|
  {
    seq(|r.hags|, k requires 0 <= k < |r.hags| => Hag(r.hags[k]))
  }

  /** A rule speaks for a client: its level, its user and host lists, and its calculation if it
      has one. An empty list admits everyone; a bad input keeps a calculation from counting. */
  predicate Matches(phash: Hash, inpBad: set<nat>, r: Rule, w: Who) {
    && w.level <= r.level
    && (r.uags == [] || InSome(phash, w.user, Uags(r)))
    && (r.hags == [] || InSome(phash, w.host, Hags(r)))
    && (r.formula.None? || (inpBad !! r.inpUsed && r.result))
  }

  /** A rule gives a client nothing: it is above the level of the rule, it is on none of the user
      lists or on none of the host lists the rule names, or the calculation of the rule uses a bad
      input or has not come out true. */
  predicate Excluded(phash: Hash, inpBad: set<nat>, r: Rule, w: Who) {
    || w.level > r.level
    || (|r.uags| > 0 && forall u :: u in r.uags ==> (w.user, Uag(u)) !in phash)
    || (|r.hags| > 0 && forall h :: h in r.hags ==> (w.host, Hag(h)) !in phash)
    || (r.formula.Some? && (!r.result || exists i :: i in r.inpUsed && i in inpBad))
  }

  /** A rule speaks for exactly the clients it does not exclude. */
  lemma MatchesMeans(phash: Hash, inpBad: set<nat>, r: Rule, w: Who)
    ensures Matches(phash, inpBad, r, w) <==> !Excluded(phash, inpBad, r, w)
  {
    InUags(phash, r, w.user);
    InHags(phash, r, w.host);
  }

  lemma InUags(phash: Hash, r: Rule, who: string)
    ensures InSome(phash, who, Uags(r)) <==> exists u :: u in r.uags && (who, Uag(u)) in phash
  {
    if u :| u in r.uags && (who, Uag(u)) in phash {
      var k :| 0 <= k < |r.uags| && r.uags[k] == u;
      assert (who, Uags(r)[k]) in phash;
    }
  }

  lemma InHags(phash: Hash, r: Rule, who: string)
    ensures InSome(phash, who, Hags(r)) <==> exists h :: h in r.hags && (who, Hag(h)) in phash
  {
    if h :| h in r.hags && (who, Hag(h)) in phash {
      var k :| 0 <= k < |r.hags| && r.hags[k] == h;
      assert (who, Hags(r)[k]) in phash;
    }
  }

  /** What the rules give a client, said without the rules for matching: no rule that speaks for it
      gives more, and the first one that gives as much gives its trap mask. */
  ghost predicate Deserved(phash: Hash, rules: seq<Rule>, inpBad: set<nat>, w: Who, access: Access, trapMask: int) {
    && (forall k :: 0 <= k < |rules| ==> rules[k].access <= access || Excluded(phash, inpBad, rules[k], w))
    && (access == 0 ==> trapMask == 0)
    && (access > 0 ==>
          exists k :: 0 <= k < |rules| && rules[k].access == access && rules[k].trapMask == trapMask &&
            !Excluded(phash, inpBad, rules[k], w) &&
            forall j :: 0 <= j < k ==> rules[j].access < access || Excluded(phash, inpBad, rules[j], w))
  }

  lemma RightIsDeserved(phash: Hash, rules: seq<Rule>, inpBad: set<nat>, w: Who, access: Access, trapMask: int)
    ensures IsRight(phash, rules, inpBad, w, access, trapMask) <==>
            Deserved(phash, rules, inpBad, w, access, trapMask)
  {
    forall k | 0 <= k < |rules|
      ensures Matches(phash, inpBad, rules[k], w) <==> !Excluded(phash, inpBad, rules[k], w)
    {
      MatchesMeans(phash, inpBad, rules[k], w);
    }
    if access > 0 && IsRight(phash, rules, inpBad, w, access, trapMask) {
      var k :| 0 <= k < |rules| && FirstWith(phash, rules, inpBad, w, access, k) && trapMask == rules[k].trapMask;
      assert rules[k].access == access && !Excluded(phash, inpBad, rules[k], w);
    }
    if access > 0 && Deserved(phash, rules, inpBad, w, access, trapMask) {
      var k :| 0 <= k < |rules| && rules[k].access == access && rules[k].trapMask == trapMask &&
        !Excluded(phash, inpBad, rules[k], w) &&
        forall j :: 0 <= j < k ==> rules[j].access < access || Excluded(phash, inpBad, rules[j], w);
      assert FirstWith(phash, rules, inpBad, w, access, k);
    }
  }

  /** The highest access any matching rule gives, with the trap mask of the first matching rule
      that gives it. */
  predicate IsRight(phash: Hash, rules: seq<Rule>, inpBad: set<nat>, w: Who, access: Access, trapMask: int) {
    && (forall k :: 0 <= k < |rules| && Matches(phash, inpBad, rules[k], w) ==> rules[k].access <= access)
    && (access == ASNOACCESS ==> trapMask == 0)
    && (access > ASNOACCESS ==>
          exists k :: 0 <= k < |rules| && FirstWith(phash, rules, inpBad, w, access, k) &&
            trapMask == rules[k].trapMask)
  }

  predicate FirstWith(phash: Hash, rules: seq<Rule>, inpBad: set<nat>, w: Who, access: Access, k: nat)
    requires k < |rules|
  {
    && rules[k].access == access && Matches(phash, inpBad, rules[k], w)
    && forall j :: 0 <= j < k && Matches(phash, inpBad, rules[j], w) ==> rules[j].access < access
  }

  /** Rules give one right. */
  lemma OneRight(phash: Hash, rules: seq<Rule>, inpBad: set<nat>, w: Who, a: Access, t: int, b: Access, u: int)
    requires IsRight(phash, rules, inpBad, w, a, t) && IsRight(phash, rules, inpBad, w, b, u)
    ensures a == b && t == u
  {
    if a > ASNOACCESS {
      var k :| 0 <= k < |rules| && FirstWith(phash, rules, inpBad, w, a, k) && t == rules[k].trapMask;
      assert rules[k].access <= b;
    }
    if b > ASNOACCESS {
      var j :| 0 <= j < |rules| && FirstWith(phash, rules, inpBad, w, b, j) && u == rules[j].trapMask;
      assert rules[j].access <= a;
    }
  }

  /** The right the first `n` rules give: a later rule counts only if it raises the access. */
  function Best(phash: Hash, rules: seq<Rule>, inpBad: set<nat>, w: Who, n: nat): (Access, int)
    requires n <= |rules|
  {
    if n == 0 then (ASNOACCESS, 0)
    else
      var (best, r) := (Best(phash, rules, inpBad, w, n - 1), rules[n - 1]);
      if best.0 < r.access && Matches(phash, inpBad, r, w) then (r.access, r.trapMask) else best
  }

  function Rights(phash: Hash, rules: seq<Rule>, inpBad: set<nat>, w: Who): (Access, int) {
    Best(phash, rules, inpBad, w, |rules|)
  }

  /** One rule more: it is the new right, or the right found before it stays. */
  lemma BestMore(phash: Hash, rules: seq<Rule>, inpBad: set<nat>, w: Who, n: nat)
    requires n < |rules|
    requires var (a, t) := Best(phash, rules, inpBad, w, n); IsRight(phash, rules[..n], inpBad, w, a, t)
    ensures var (a, t) := Best(phash, rules, inpBad, w, n + 1); IsRight(phash, rules[..n + 1], inpBad, w, a, t)
  {
    var p, q := rules[..n], rules[..n + 1];
    assert q == p + [rules[n]];
    var (a, t) := Best(phash, rules, inpBad, w, n);
    if a < rules[n].access && Matches(phash, inpBad, rules[n], w) {
      RightRaised(phash, p, inpBad, w, a, t, rules[n]);
    } else {
      RightStays(phash, p, inpBad, w, a, t, rules[n]);
    }
  }

  lemma RightRaised(phash: Hash, p: seq<Rule>, inpBad: set<nat>, w: Who, a: Access, t: int, r: Rule)
    requires IsRight(phash, p, inpBad, w, a, t) && a < r.access && Matches(phash, inpBad, r, w)
    ensures IsRight(phash, p + [r], inpBad, w, r.access, r.trapMask)
  {
    assert FirstWith(phash, p + [r], inpBad, w, r.access, |p|);
  }

  lemma RightStays(phash: Hash, p: seq<Rule>, inpBad: set<nat>, w: Who, a: Access, t: int, r: Rule)
    requires IsRight(phash, p, inpBad, w, a, t) && (r.access <= a || !Matches(phash, inpBad, r, w))
    ensures IsRight(phash, p + [r], inpBad, w, a, t)
  {
    if a > ASNOACCESS {
      var k :| 0 <= k < |p| && FirstWith(phash, p, inpBad, w, a, k) && t == p[k].trapMask;
      assert FirstWith(phash, p + [r], inpBad, w, a, k);
    }
  }

  lemma {:induction false} BestPrefix(phash: Hash, rules: seq<Rule>, inpBad: set<nat>, w: Who, n: nat)
    requires n <= |rules|
    ensures var (a, t) := Best(phash, rules, inpBad, w, n); IsRight(phash, rules[..n], inpBad, w, a, t)
  {
    if n > 0 {
      BestPrefix(phash, rules, inpBad, w, n - 1);
      BestMore(phash, rules, inpBad, w, n - 1);
    }
  }

  /** The scan in order finds exactly the right that the rules give. */
  lemma RightsAreRight(phash: Hash, rules: seq<Rule>, inpBad: set<nat>, w: Who, access: Access, trapMask: int)
    ensures IsRight(phash, rules, inpBad, w, access, trapMask) <==>
            Rights(phash, rules, inpBad, w) == (access, trapMask)
  {
    var (a, t) := Rights(phash, rules, inpBad, w);
    BestPrefix(phash, rules, inpBad, w, |rules|);
    assert rules[..|rules|] == rules;
    if IsRight(phash, rules, inpBad, w, access, trapMask) {
      OneRight(phash, rules, inpBad, w, access, trapMask, a, t);
    }
  }

  /** Nothing is above write access. */
  lemma {:induction false} WriteIsFinal(phash: Hash, rules: seq<Rule>, inpBad: set<nat>, w: Who, k: nat, n: nat)
    requires k <= n <= |rules| && Best(phash, rules, inpBad, w, k).0 == ASWRITE
    ensures Best(phash, rules, inpBad, w, n) == Best(phash, rules, inpBad, w, k)
  {
    if k < n {
      WriteIsFinal(phash, rules, inpBad, w, k, n - 1);
    }
  }

  // ---------------------------------------------------------------- evaluation from scratch

  /** What a calculation is worth: its value on the current inputs once one of the inputs it
      uses has been reported, and false before. */
  predicate Truth(pavalue: seq<real>, reported: set<nat>, r: Rule)
    requires |pavalue| == ASMAXINP && RuleOk(r)
  {
    r.formula.Some? && reported * r.inpUsed != {} && IsTrue(CalcPerform(r.formula.value, pavalue))
  }

  /** The rules with every calculation done from scratch. */
  function FreshRules(rules: seq<Rule>, pavalue: seq<real>, reported: set<nat>): (renewed: seq<Rule>)
    requires |pavalue| == ASMAXINP && RulesOk(rules)
    ensures |renewed| == |rules| && RulesOk(renewed)
  {
    seq(|rules|, k requires 0 <= k < |rules| =>
      if rules[k].formula.None? then rules[k] else rules[k].(result := Truth(pavalue, reported, rules[k])))
  }

  /** From scratch a calculation counts if some input it uses has been reported and it comes out near
      one on the present values; nothing else about a rule changes. */
  lemma FreshMeans(rules: seq<Rule>, pavalue: seq<real>, reported: set<nat>, k: nat)
    requires |pavalue| == ASMAXINP && RulesOk(rules) && k < |rules|
    ensures var f := FreshRules(rules, pavalue, reported)[k];
            f == rules[k].(result := f.result) && (rules[k].formula.None? ==> f == rules[k])
    ensures rules[k].formula.Some? ==>
              RuleOk(rules[k]) && var value := CalcPerform(rules[k].formula.value, pavalue);
              FreshRules(rules, pavalue, reported)[k].result <==>
                (exists i :: i in reported && i in rules[k].inpUsed) && value.Some? && 0.99 < value.value < 1.01
  {
    assert RuleOk(rules[k]);
    if i :| i in reported && i in rules[k].inpUsed {
      assert i in reported * rules[k].inpUsed;
    } else {
      assert reported * rules[k].inpUsed == {};
    }
  }

  /** Results are up to date except for rules that use an input marked as changed. */
  predicate UpToDate(g: Asg, reported: set<nat>)
    requires AsgOk(g)
  {
    && g.inpChanged <= reported
    && forall k :: 0 <= k < |g.rules| && g.rules[k].formula.Some? && g.inpChanged !! g.rules[k].inpUsed ==>
         g.rules[k].result == Truth(g.pavalue, reported, g.rules[k])
  }

  lemma NothingPending(g: Asg, reported: set<nat>)
    requires AsgOk(g) && UpToDate(g, reported) && g.inpChanged == {}
    ensures FreshRules(g.rules, g.pavalue, reported) == g.rules
  {
  }

  /** A report marks its input; rules that do not use it keep their value. */
  lemma Reported(g: Asg, reported: set<nat>, i: nat, value: real, inpBad: set<nat>)
    requires AsgOk(g) && UpToDate(g, reported) && i < ASMAXINP
    ensures var h := g.(pavalue := g.pavalue[i := value], inpChanged := g.inpChanged + {i}, inpBad := inpBad);
            AsgOk(h) && UpToDate(h, reported + {i})
  {
    var h := g.(pavalue := g.pavalue[i := value], inpChanged := g.inpChanged + {i}, inpBad := inpBad);
    forall k | 0 <= k < |h.rules| && h.rules[k].formula.Some? && h.inpChanged !! h.rules[k].inpUsed
      ensures h.rules[k].result == Truth(h.pavalue, reported + {i}, h.rules[k])
    {
      var r := g.rules[k];
      assert RuleOk(r) && i !in r.inpUsed;
      assert (reported + {i}) * r.inpUsed == reported * r.inpUsed;
      CalcFrame(r.formula.value, g.pavalue, h.pavalue);
    }
  }

  // ---------------------------------------------------------------- scanning

  method Find(phash: Hash, who: string, groups: seq<Group>) returns (found: bool)
    ensures found <==> InSome(phash, who, groups)
  {
    var k := 0;
    while k < |groups|
      invariant 0 <= k <= |groups|
      invariant forall j :: 0 <= j < k ==> (who, groups[j]) !in phash
    {
      if (who, groups[k]) in phash {
        return true;
      }
      k := k + 1;
    }
    return false;
  }

  /** Walks the rules in order, stopping as soon as write access is reached and looking only at
      rules that would raise the access. */
  method Scan(phash: Hash, rules: seq<Rule>, inpBad: set<nat>, w: Who) returns (access: Access, trapMask: int)
    ensures (access, trapMask) == Rights(phash, rules, inpBad, w)
    ensures Deserved(phash, rules, inpBad, w, access, trapMask)
  {
    var (a, t) := Rights(phash, rules, inpBad, w);
    RightsAreRight(phash, rules, inpBad, w, a, t);
    RightIsDeserved(phash, rules, inpBad, w, a, t);
    access, trapMask := ASNOACCESS, 0;
    var k := 0;
    while k < |rules|
      invariant 0 <= k <= |rules|
      invariant (access, trapMask) == Best(phash, rules, inpBad, w, k)
    {
      if access == ASWRITE {
        WriteIsFinal(phash, rules, inpBad, w, k, |rules|);
        break;
      }
      var r := rules[k];
      if access < r.access && w.level <= r.level {
        var uagOk := true;
        if |r.uags| > 0 {
          uagOk := Find(phash, w.user, Uags(r));
        }
        if uagOk {
          var hagOk := true;
          if |r.hags| > 0 {
            hagOk := Find(phash, w.host, Hags(r));
          }
          if hagOk && (r.formula.None? || (inpBad !! r.inpUsed && r.result)) {
            access := r.access;
            trapMask := r.trapMask;
          }
        }
      }
      k := k + 1;
    }
  }

  /** A rule that uses a changed input counts if its calculation comes out near one, and any other
      rule is as it was. */
  predicate Recalculated(r: Rule, renewed: Rule, pavalue: seq<real>, inpChanged: set<nat>)
    requires |pavalue| == ASMAXINP && RuleOk(r)
  {
    if r.formula.Some? && exists i :: i in r.inpUsed && i in inpChanged then
      var value := CalcPerform(r.formula.value, pavalue);
      renewed == r.(result := value.Some? && 0.99 < value.value < 1.01)
    else renewed == r
  }

  /** Recalculates the rules that use a changed input, in order. */
  method Recalculate(rules: seq<Rule>, pavalue: seq<real>, inpChanged: set<nat>, ghost reported: set<nat>)
    returns (renewed: seq<Rule>)
    requires |pavalue| == ASMAXINP && RulesOk(rules) && inpChanged <= reported
    requires forall k :: 0 <= k < |rules| && rules[k].formula.Some? && inpChanged !! rules[k].inpUsed ==>
      rules[k].result == Truth(pavalue, reported, rules[k])
    ensures renewed == FreshRules(rules, pavalue, reported)
    ensures |renewed| == |rules|
    ensures forall k :: 0 <= k < |rules| ==> Recalculated(rules[k], renewed[k], pavalue, inpChanged)
  {
    renewed := rules;
    var k := 0;
    while k < |renewed|
      invariant 0 <= k <= |renewed| == |rules|
      invariant forall j :: 0 <= j < k ==> renewed[j] == FreshRules(rules, pavalue, reported)[j]
      invariant forall j :: 0 <= j < k ==> Recalculated(rules[j], renewed[j], pavalue, inpChanged)
      invariant forall j :: k <= j < |rules| ==> renewed[j] == rules[j]
    {
      var r := renewed[k];
      assert RuleOk(rules[k]);
      assert (exists i :: i in r.inpUsed && i in inpChanged) <==> !(inpChanged !! r.inpUsed);
      if r.formula.Some? && !(inpChanged !! r.inpUsed) {
        assert reported * r.inpUsed != {} by {
          var i :| i in inpChanged && i in r.inpUsed;
          assert i in reported * r.inpUsed;
        }
        var result := CalcPerform(r.formula.value, pavalue);
        renewed := renewed[k := r.(result := if result.None? then false else 0.99 < result.value < 1.01)];
      }
      k := k + 1;
    }
  }
}
