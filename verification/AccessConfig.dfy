/** Building a configuration: the calls the parser makes while it reads the file. */
module AccessConfigs {
  import opened Options
  import opened AccessRules
  import opened AccessStates

  // ---------------------------------------------------------------- the order of names

  predicate Before(a: string, b: string) {
    if b == "" then false
    else if a == "" then true
    else if a[0] != b[0] then a[0] < b[0]
    else Before(a[1..], b[1..])
  }

  /** The first character in which two names differ. */
  predicate Differ(a: string, b: string, k: nat) {
    k < |a| && k < |b| && a[..k] == b[..k] && a[k] < b[k]
  }

  /** Names are ordered as in a dictionary: one that begins another comes before it, and otherwise the
      first character in which they differ decides. */
  lemma {:induction false} BeforeMeans(a: string, b: string)
    ensures Before(a, b) <==>
      a < b || exists k: nat :: Differ(a, b, k)
  {
    if a != "" && b != "" {
      if a[0] == b[0] {
        BeforeMeans(a[1..], b[1..]);
        BehindFirst(a, b);
      } else if a[0] < b[0] {
        assert Differ(a, b, 0);
      }
    }
  }

  lemma BehindFirst(a: string, b: string)
    requires a != "" && b != "" && a[0] == b[0]
    ensures a < b <==> a[1..] < b[1..]
    ensures (exists k: nat :: Differ(a, b, k)) <==> exists k: nat :: Differ(a[1..], b[1..], k)
  {
    assert a == [a[0]] + a[1..] && b == [b[0]] + b[1..];
    if k: nat :| Differ(a, b, k) {
      assert k > 0 && a[..k][1..] == a[1..][..k - 1] && b[..k][1..] == b[1..][..k - 1];
      assert Differ(a[1..], b[1..], k - 1);
    }
    if k: nat :| Differ(a[1..], b[1..], k) {
      assert a[..k + 1] == [a[0]] + a[1..][..k] && b[..k + 1] == [b[0]] + b[1..][..k];
      assert Differ(a, b, k + 1);
    }
  }

  lemma {:induction false} BeforeTotal(a: string, b: string)
    ensures a == b <==> !Before(a, b) && !Before(b, a)
    ensures !(Before(a, b) && Before(b, a))
  {
    if a != "" && b != "" && a[0] == b[0] {
      BeforeTotal(a[1..], b[1..]);
      assert a == [a[0]] + a[1..] && b == [b[0]] + b[1..];
    }
  }

  lemma {:induction false} BeforeTransitive(a: string, b: string, c: string)
    requires Before(a, b) && Before(b, c)
    ensures Before(a, c)
  {
    if a != "" && a[0] == b[0] && b[0] == c[0] {
      BeforeTransitive(a[1..], b[1..], c[1..]);
    }
  }

  predicate Sorted(asgs: seq<Asg>) {
    forall g, h :: 0 <= g < h < |asgs| ==> Before(asgs[g].name, asgs[h].name)
  }

  predicate Present(asgs: seq<Asg>, name: string) {
    exists g :: 0 <= g < |asgs| && asgs[g].name == name
  }

  predicate Empty(a: Asg) {
    a.inps == [] && a.rules == []
  }

  function NewAsg(name: string): Asg {
    Asg(name, [], [], [], [], {}, {})
  }

  lemma SortedInsert(asgs: seq<Asg>, g: nat, name: string)
    requires Sorted(asgs) && g <= |asgs|
    requires forall h :: 0 <= h < g ==> Before(asgs[h].name, name)
    requires g < |asgs| ==> Before(name, asgs[g].name)
    ensures Sorted(asgs[..g] + [NewAsg(name)] + asgs[g..]) && !Present(asgs, name)
    ensures Present(asgs, DEFAULT) ==> Present(asgs[..g] + [NewAsg(name)] + asgs[g..], DEFAULT)
  {
    if d :| 0 <= d < |asgs| && asgs[d].name == DEFAULT {
      assert (asgs[..g] + [NewAsg(name)] + asgs[g..])[if d < g then d else d + 1] == asgs[d];
    }
    forall h | g <= h < |asgs| ensures Before(name, asgs[h].name) {
      if h > g {
        BeforeTransitive(name, asgs[g].name, asgs[h].name);
      }
    }
    forall h | 0 <= h < |asgs| ensures asgs[h].name != name {
      BeforeTotal(asgs[h].name, name);
    }
  }

  // ---------------------------------------------------------------- lists of users and of hosts

  predicate SortedLists(lists: seq<NameList>) {
    forall k, l :: 0 <= k < l < |lists| ==> Before(lists[k].name, lists[l].name)
  }

  predicate HasList(lists: seq<NameList>, name: string) {
    exists k :: 0 <= k < |lists| && lists[k].name == name
  }

  predicate InLowerCase(lists: seq<NameList>) {
    forall k :: 0 <= k < |lists| ==> AllLower(lists[k].names)
  }

  predicate AllLower(names: seq<string>) {
    forall n :: n in names ==> Lower(n) == n
  }

  lemma ListInsert(lists: seq<NameList>, k: nat, name: string)
    requires SortedLists(lists) && k <= |lists|
    requires forall l :: 0 <= l < k ==> Before(lists[l].name, name)
    requires k < |lists| ==> Before(name, lists[k].name)
    ensures var more := lists[..k] + [NameList(name, [])] + lists[k..];
            && SortedLists(more) && !HasList(lists, name)
            && (forall n :: HasList(lists, n) ==> HasList(more, n))
            && (InLowerCase(lists) ==> InLowerCase(more))
  {
    var more := lists[..k] + [NameList(name, [])] + lists[k..];
    forall l | k <= l < |lists| ensures Before(name, lists[l].name) {
      if l > k {
        BeforeTransitive(name, lists[k].name, lists[l].name);
      }
    }
    forall l | 0 <= l < |lists| ensures lists[l].name != name && more[if l < k then l else l + 1] == lists[l] {
      BeforeTotal(lists[l].name, name);
    }
  }

  lemma LowerTwice(s: string)
    ensures Lower(Lower(s)) == Lower(s)
  {
  }

  // ---------------------------------------------------------------- what rules may name

  /** Every group a rule names is in the configuration. */
  predicate Known(asgs: seq<Asg>, uags: seq<NameList>, hags: seq<NameList>) {
    forall g, k :: 0 <= g < |asgs| && 0 <= k < |asgs[g].rules| ==> RuleKnown(asgs[g].rules[k], uags, hags)
  }

  predicate RuleKnown(r: Rule, uags: seq<NameList>, hags: seq<NameList>) {
    (forall n :: n in r.uags ==> HasList(uags, n)) && (forall n :: n in r.hags ==> HasList(hags, n))
  }

  lemma KnownMore(asgs: seq<Asg>, uags: seq<NameList>, hags: seq<NameList>, uags2: seq<NameList>, hags2: seq<NameList>)
    requires Known(asgs, uags, hags)
    requires forall n :: HasList(uags, n) ==> HasList(uags2, n)
    requires forall n :: HasList(hags, n) ==> HasList(hags2, n)
    ensures Known(asgs, uags2, hags2)
  {
    forall g, k | 0 <= g < |asgs| && 0 <= k < |asgs[g].rules| ensures RuleKnown(asgs[g].rules[k], uags2, hags2) {
      assert RuleKnown(asgs[g].rules[k], uags, hags);
    }
  }

  lemma KnownInsert(asgs: seq<Asg>, g: nat, name: string, uags: seq<NameList>, hags: seq<NameList>)
    requires Known(asgs, uags, hags) && g <= |asgs|
    ensures Known(asgs[..g] + [NewAsg(name)] + asgs[g..], uags, hags)
  {
    var more := asgs[..g] + [NewAsg(name)] + asgs[g..];
    forall h, k | 0 <= h < |more| && 0 <= k < |more[h].rules| ensures RuleKnown(more[h].rules[k], uags, hags) {
      assert RuleKnown(asgs[if h < g then h else h - 1].rules[k], uags, hags);
    }
  }

  class ConfigBuilder {
    var asgs: seq<Asg>
    var uags: seq<NameList>
    var hags: seq<NameList>

    ghost predicate Valid()
      reads this
    {
      && Sorted(asgs) && Present(asgs, DEFAULT) && (forall g :: 0 <= g < |asgs| ==> Untouched(asgs[g]))
      && SortedLists(uags) && SortedLists(hags) && InLowerCase(hags) && Known(asgs, uags, hags)
    }

    constructor ()
      ensures Valid() && asgs == [NewAsg(DEFAULT)] && uags == hags == []
    {
      asgs, uags, hags := [NewAsg(DEFAULT)], [], [];
      new;
      assert asgs[0].name == DEFAULT;
    }

    /** Where a list with a new name goes; a name can be given once. */
    method Place(lists: seq<NameList>, name: string) returns (r: Option<nat>)
      requires SortedLists(lists)
      ensures r.None? <==> HasList(lists, name)
      ensures r.Some? ==> r.value <= |lists| && forall l :: 0 <= l < r.value ==> Before(lists[l].name, name)
      ensures r.Some? && r.value < |lists| ==> Before(name, lists[r.value].name)
    {
      var k := 0;
      while k < |lists|
        invariant 0 <= k <= |lists| && forall l :: 0 <= l < k ==> Before(lists[l].name, name)
      {
        BeforeTotal(name, lists[k].name);
        if Before(name, lists[k].name) {
          break;
        }
        if lists[k].name == name {
          return None;
        }
        k := k + 1;
      }
      ListInsert(lists, k, name);
      return Some(k);
    }

    /** Adds a group of users in alphabetic order, unless there is one of that name. */
    method UagAdd(name: string) returns (r: Option<nat>)
      requires Valid()
      modifies `uags
      ensures Valid() && (r.None? <==> HasList(old(uags), name))
      ensures r.None? ==> uags == old(uags)
      ensures r.Some? ==> r.value <= |old(uags)|
      ensures r.Some? ==> uags == old(uags)[..r.value] + [NameList(name, [])] + old(uags)[r.value..]
    {
      r := Place(uags, name);
      if r.Some? {
        ListInsert(uags, r.value, name);
        var more := uags[..r.value] + [NameList(name, [])] + uags[r.value..];
        KnownMore(asgs, uags, hags, more, hags);
        uags := more;
      }
    }

    method UagAddUser(k: nat, user: string)
      requires Valid() && k < |uags|
      modifies `uags
      ensures Valid() && uags == old(uags)[k := old(uags[k]).(names := old(uags[k].names) + [user])]
    {
      var more := uags[k := uags[k].(names := uags[k].names + [user])];
      SameListNames(uags, more);
      KnownMore(asgs, uags, hags, more, hags);
      uags := more;
    }

    /** Adds a group of hosts in alphabetic order, unless there is one of that name. */
    method HagAdd(name: string) returns (r: Option<nat>)
      requires Valid()
      modifies `hags
      ensures Valid() && (r.None? <==> HasList(old(hags), name))
      ensures r.None? ==> hags == old(hags)
      ensures r.Some? ==> r.value <= |old(hags)|
      ensures r.Some? ==> hags == old(hags)[..r.value] + [NameList(name, [])] + old(hags)[r.value..]
    {
      r := Place(hags, name);
      if r.Some? {
        ListInsert(hags, r.value, name);
        var more := hags[..r.value] + [NameList(name, [])] + hags[r.value..];
        KnownMore(asgs, uags, hags, uags, more);
        hags := more;
      }
    }

    /** Hosts are kept in lower case. */
    method HagAddHost(k: nat, host: string)
      requires Valid() && k < |hags|
      modifies `hags
      ensures Valid() && hags == old(hags)[k := old(hags[k]).(names := old(hags[k].names) + [Lower(host)])]
    {
      var more := hags[k := hags[k].(names := hags[k].names + [Lower(host)])];
      LowerTwice(host);
      assert AllLower(hags[k].names);
      SameListNames(hags, more);
      KnownMore(asgs, uags, hags, uags, more);
      hags := more;
    }

    /** Adds a group in alphabetic order. A name can be added once; the DEFAULT group that is
        there from the start may be added again while it is empty. */
    method AsgAdd(name: string) returns (r: Option<nat>)
      requires Valid()
      modifies `asgs
      ensures Valid()
      ensures r.None? ==> asgs == old(asgs) && Present(asgs, name)
      ensures r.Some? ==> r.value <= |old(asgs)|
      ensures r.Some? ==> r.value < |asgs| && asgs[r.value].name == name && Empty(asgs[r.value])
      ensures r.Some? ==> asgs == if Present(old(asgs), name) then old(asgs)
        else old(asgs)[..r.value] + [NewAsg(name)] + old(asgs)[r.value..]
      ensures r.None? && name == DEFAULT ==> exists g :: 0 <= g < |asgs| && asgs[g].name == name && !Empty(asgs[g])
      ensures r.Some? && Present(old(asgs), name) ==> name == DEFAULT
    {
      var g := 0;
      while g < |asgs|
        invariant 0 <= g <= |asgs| && asgs == old(asgs)
        invariant forall h :: 0 <= h < g ==> Before(asgs[h].name, name)
      {
        BeforeTotal(name, asgs[g].name);
        if Before(name, asgs[g].name) {
          break;
        }
        if asgs[g].name == name {
          if name == DEFAULT && Empty(asgs[g]) {
            return Some(g);
          }
          return None;
        }
        g := g + 1;
      }
      InsertAsg(g, name);
      return Some(g);
    }

    method InsertAsg(g: nat, name: string)
      requires Valid() && g <= |asgs| && (g < |asgs| ==> Before(name, asgs[g].name))
      requires forall h :: 0 <= h < g ==> Before(asgs[h].name, name)
      modifies `asgs
      ensures Valid() && !Present(old(asgs), name)
      ensures asgs == old(asgs)[..g] + [NewAsg(name)] + old(asgs)[g..]
    {
      SortedInsert(asgs, g, name);
      KnownInsert(asgs, g, name, uags, hags);
      asgs := asgs[..g] + [NewAsg(name)] + asgs[g..];
    }

    /** One rule of a group is replaced by another whose groups are known. */
    method SetRule(g: nat, k: nat, r: Rule)
      requires Valid() && g < |asgs| && k < |asgs[g].rules|
      requires RuleOk(r) && !r.result && RuleKnown(r, uags, hags)
      modifies `asgs
      ensures Valid() && asgs == old(asgs)[g := old(asgs[g]).(rules := old(asgs[g].rules)[k := r])]
    {
      var rules := asgs[g].rules[k := r];
      Renewed(asgs, g, asgs[g].(rules := rules));
      KnownRules(asgs, g, rules, uags, hags);
      asgs := asgs[g := asgs[g].(rules := rules)];
    }

    method AsgAddInp(g: nat, inpIndex: nat)
      requires Valid() && g < |asgs| && inpIndex < ASMAXINP
      modifies `asgs
      ensures Valid() && asgs == old(asgs)[g := old(asgs[g]).(inps := old(asgs[g].inps) + [inpIndex])]
    {
      Renewed(asgs, g, asgs[g].(inps := asgs[g].inps + [inpIndex]));
      asgs := asgs[g := asgs[g].(inps := asgs[g].inps + [inpIndex])];
    }

    method AsgAddRule(g: nat, access: Access, level: int)
      requires Valid() && g < |asgs|
      modifies `asgs
      ensures Valid()
      ensures asgs == old(asgs)[g := old(asgs[g]).(rules := old(asgs[g].rules)
        + [Rule(access, level, {}, false, None, [], [], 0)])]
    {
      var rules := asgs[g].rules + [Rule(access, level, {}, false, None, [], [], 0)];
      Renewed(asgs, g, asgs[g].(rules := rules));
      KnownRules(asgs, g, rules, uags, hags);
      asgs := asgs[g := asgs[g].(rules := rules)];
    }

    method AsgAddRuleOptions(g: nat, k: nat, trapMask: int)
      requires Valid() && g < |asgs| && k < |asgs[g].rules|
      modifies `asgs
      ensures Valid()
      ensures asgs == old(asgs)[g := old(asgs[g]).(rules := old(asgs[g].rules)[k :=
        old(asgs[g].rules[k]).(trapMask := trapMask)])]
    {
      assert RuleKnown(asgs[g].rules[k], uags, hags);
      SetRule(g, k, asgs[g].rules[k].(trapMask := trapMask));
    }

    /** Adds a group of users to a rule; an unknown group is an error and changes nothing. */
    method AsgRuleUagAdd(g: nat, k: nat, name: string) returns (ok: bool)
      requires Valid() && g < |asgs| && k < |asgs[g].rules|
      modifies `asgs
      ensures Valid() && (ok <==> HasList(uags, name))
      ensures !ok ==> asgs == old(asgs)
      ensures ok ==> asgs == old(asgs)[g := old(asgs[g]).(rules := old(asgs[g].rules)[k :=
        old(asgs[g].rules[k]).(uags := old(asgs[g].rules[k].uags) + [name])])]
    {
      ok := Find(uags, name);
      if ok {
        assert RuleKnown(asgs[g].rules[k], uags, hags);
        SetRule(g, k, asgs[g].rules[k].(uags := asgs[g].rules[k].uags + [name]));
      }
    }

    /** Adds a group of hosts to a rule; an unknown group is an error and changes nothing. */
    method AsgRuleHagAdd(g: nat, k: nat, name: string) returns (ok: bool)
      requires Valid() && g < |asgs| && k < |asgs[g].rules|
      modifies `asgs
      ensures Valid() && (ok <==> HasList(hags, name))
      ensures !ok ==> asgs == old(asgs)
      ensures ok ==> asgs == old(asgs)[g := old(asgs[g]).(rules := old(asgs[g].rules)[k :=
        old(asgs[g].rules[k]).(hags := old(asgs[g].rules[k].hags) + [name])])]
    {
      ok := Find(hags, name);
      if ok {
        assert RuleKnown(asgs[g].rules[k], uags, hags);
        SetRule(g, k, asgs[g].rules[k].(hags := asgs[g].rules[k].hags + [name]));
      }
    }

    method Find(lists: seq<NameList>, name: string) returns (found: bool)
      ensures found <==> HasList(lists, name)
    {
      var k := 0;
      while k < |lists|
        invariant 0 <= k <= |lists| && forall l :: 0 <= l < k ==> lists[l].name != name
      {
        if lists[k].name == name {
          return true;
        }
        k := k + 1;
      }
      return false;
    }

    /** Gives a rule its calculation: the inputs it uses are the letters in its text. A text that
        is no calculation leaves the rule without one and is an error. */
    method AsgRuleCalc(g: nat, k: nat, formula: Option<Expr>, letters: set<nat>) returns (ok: bool)
      requires Valid() && g < |asgs| && k < |asgs[g].rules|
      requires forall i :: i in letters ==> i < ASMAXINP
      requires forall i :: i in asgs[g].rules[k].inpUsed ==> i < ASMAXINP
      requires formula.Some? ==> Vars(formula.value) <= letters
      modifies `asgs
      ensures Valid() && (ok <==> formula.Some?)
      ensures var r := old(asgs[g].rules[k]);
        asgs == old(asgs)[g := old(asgs[g]).(rules := old(asgs[g].rules)[k :=
          r.(formula := formula, inpUsed := if ok then r.inpUsed + letters else r.inpUsed)])]
    {
      var r := asgs[g].rules[k];
      assert RuleKnown(r, uags, hags);
      var used := if formula.Some? then r.inpUsed + letters else r.inpUsed;
      SetRule(g, k, r.(formula := formula, inpUsed := used));
      ok := formula.Some?;
    }

    /** What has been built, for the engine to take in. */
    method Built() returns (c: Config)
      requires Valid()
      ensures c == Config(uags, hags, asgs) && ConfigOk(c)
    {
      BuiltIsOk(asgs, uags, hags);
      c := Config(uags, hags, asgs);
    }
  }

  lemma SameListNames(a: seq<NameList>, b: seq<NameList>)
    requires |a| == |b| && forall k :: 0 <= k < |a| ==> a[k].name == b[k].name
    ensures SortedLists(a) ==> SortedLists(b)
    ensures forall n :: HasList(a, n) ==> HasList(b, n)
  {
    forall n | HasList(a, n) ensures HasList(b, n) {
      var k :| 0 <= k < |a| && a[k].name == n;
      assert b[k].name == n;
    }
  }

  lemma Renewed(asgs: seq<Asg>, g: nat, a: Asg)
    requires g < |asgs| && a.name == asgs[g].name && Sorted(asgs) && Present(asgs, DEFAULT)
    ensures Sorted(asgs[g := a]) && Present(asgs[g := a], DEFAULT)
  {
    var d :| 0 <= d < |asgs| && asgs[d].name == DEFAULT;
    assert asgs[g := a][d].name == DEFAULT;
  }

  lemma KnownRules(asgs: seq<Asg>, g: nat, rules: seq<Rule>, uags: seq<NameList>, hags: seq<NameList>)
    requires g < |asgs| && Known(asgs, uags, hags)
    requires forall k :: 0 <= k < |rules| ==>
               RuleKnown(rules[k], uags, hags) || (k < |asgs[g].rules| && rules[k] == asgs[g].rules[k])
    ensures Known(asgs[g := asgs[g].(rules := rules)], uags, hags)
  {
    var more := asgs[g := asgs[g].(rules := rules)];
    forall h, k | 0 <= h < |more| && 0 <= k < |more[h].rules| ensures RuleKnown(more[h].rules[k], uags, hags) {
      if h != g || (k < |asgs[g].rules| && rules[k] == asgs[g].rules[k]) {
        assert RuleKnown(asgs[h].rules[k], uags, hags);
      }
    }
  }

  /** What the builder builds is a configuration the engine can take in. */
  lemma BuiltIsOk(asgs: seq<Asg>, uags: seq<NameList>, hags: seq<NameList>)
    requires Sorted(asgs) && Present(asgs, DEFAULT) && forall g :: 0 <= g < |asgs| ==> Untouched(asgs[g])
    ensures ConfigOk(Config(uags, hags, asgs))
  {
    forall g, h | 0 <= g < h < |asgs| ensures asgs[g].name != asgs[h].name {
      BeforeTotal(asgs[g].name, asgs[h].name);
    }
  }

  /** In a built configuration a rule that names a group of users or of hosts means one list, and
      exactly the names on it belong to the group. */
  lemma OneList(uags: seq<NameList>, hags: seq<NameList>, asgs: seq<Asg>, k: nat, who: string)
    requires SortedLists(uags) && SortedLists(hags)
    ensures k < |uags| ==> (InHash(Config(uags, hags, asgs), who, Uag(uags[k].name)) <==> who in uags[k].names)
    ensures k < |hags| ==> (InHash(Config(uags, hags, asgs), who, Hag(hags[k].name)) <==> who in hags[k].names)
  {
    if k < |uags| {
      ListedOnce(uags, k, who);
    }
    if k < |hags| {
      ListedOnce(hags, k, who);
    }
  }

  lemma ListedOnce(lists: seq<NameList>, k: nat, who: string)
    requires SortedLists(lists) && k < |lists|
    ensures Listed(lists, lists[k].name, who) <==> who in lists[k].names
  {
    forall l | 0 <= l < |lists| && lists[l].name == lists[k].name ensures l == k {
      BeforeTotal(lists[l].name, lists[k].name);
    }
  }
}
