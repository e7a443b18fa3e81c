/** The intake rescan: every string of a submitted value, object keys included, is checked
    against the length limit and the secret patterns, and reported by path only. */
module Sanitize {
  import opened Collections
  import opened Text
  import opened Json
  import opened Pointer

  datatype Rule = StringTooLong | SecretPattern
  datatype Issue = Issue(path: Text, rule: Rule)

  /** `secret` holds when some configured pattern matches. */
  datatype Options = Options(maxStringLength: nat, secret: Text -> bool)

  predicate Trips(text: Text, rule: Rule, options: Options) {
    match rule
    case StringTooLong => |text| > options.maxStringLength
    case SecretPattern => options.secret(text)
  }

  /** A string the walk looks at, with the path it would report. */
  datatype Visit = Visit(text: Text, path: Text)

  function IssuesAt(visit: Visit, options: Options): seq<Issue> {
    (if |visit.text| > options.maxStringLength then [Issue(visit.path, StringTooLong)] else [])
    + (if options.secret(visit.text) then [Issue(visit.path, SecretPattern)] else [])
  }

  function IssuesOf(visits: seq<Visit>, options: Options): seq<Issue> {
    if visits == [] then []
    else IssuesOf(visits[..|visits| - 1], options) + IssuesAt(visits[|visits| - 1], options)
  }

  function ChildPath(path: Text, step: Step): Text {
    path + ([SLASH] + Segment(step))
  }

  /** The strings of a value, in walking order. */
  function Visits(v: Json, path: Text): seq<Visit>
    decreases v, 0
  {
    match v
    case Str(text) => [Visit(text, path)]
    case Array(items) => VisitsOfItems(items, |items|, path)
    case Object(ms) => VisitsOfMembers(ms, |ms|, path)
    case _ => []
  }

  function VisitsOfItems(items: seq<Json>, k: nat, path: Text): seq<Visit>
    requires k <= |items|
    decreases items, k
  {
    if k == 0 then []
    else VisitsOfItems(items, k - 1, path) + Visits(items[k - 1], ChildPath(path, Index(k - 1)))
  }

  function VisitsOfMember(m: Member, path: Text): seq<Visit>
    decreases m, 0
  {
    var child := ChildPath(path, Key(m.key));
    [Visit(m.key, child)] + Visits(m.value, child)
  }

  function VisitsOfMembers(ms: seq<Member>, k: nat, path: Text): seq<Visit>
    requires k <= |ms|
    decreases ms, k
  {
    if k == 0 then []
    else VisitsOfMembers(ms, k - 1, path) + VisitsOfMember(ms[k - 1], path)
  }

  class Rescan {
    const options: Options
    var issues: seq<Issue>
    var checked: nat

    constructor (options: Options)
      ensures this.options == options && issues == [] && checked == 0
    {
      this.options := options;
      issues, checked := [], 0;
    }

    method Check(text: Text, path: Text)
      modifies this
      ensures issues == old(issues) + IssuesAt(Visit(text, path), options)
      ensures checked == old(checked) + 1
    {
      checked := checked + 1;
      if |text| > options.maxStringLength {
        issues := issues + [Issue(path, StringTooLong)];
      }
      if options.secret(text) {
        issues := issues + [Issue(path, SecretPattern)];
      }
    }

    method Walk(node: Json, path: Text)
      modifies this
      ensures issues == old(issues) + IssuesOf(Visits(node, path), options)
      ensures checked == old(checked) + |Visits(node, path)|
      decreases node, 1
    {
      match node {
        case Str(text) =>
          Check(text, path);
          IssuesOfOne(Visit(text, path), options);
        case Array(items) =>
          WalkItems(items, path);
        case Object(ms) =>
          WalkMembers(ms, path);
        case _ =>
      }
    }

    method WalkItems(items: seq<Json>, path: Text)
      modifies this
      ensures issues == old(issues) + IssuesOf(VisitsOfItems(items, |items|, path), options)
      ensures checked == old(checked) + |VisitsOfItems(items, |items|, path)|
      decreases items, 2
    {
      ghost var done: seq<Visit> := [];
      for k := 0 to |items|
        invariant done == VisitsOfItems(items, k, path)
        invariant issues == old(issues) + IssuesOf(done, options)
        invariant checked == old(checked) + |done|
      {
        Walk(items[k], ChildPath(path, Index(k)));
        ghost var next := Visits(items[k], ChildPath(path, Index(k)));
        IssuesExtend(old(issues), done, next, options);
        done := done + next;
      }
    }

    method WalkMembers(ms: seq<Member>, path: Text)
      modifies this
      ensures issues == old(issues) + IssuesOf(VisitsOfMembers(ms, |ms|, path), options)
      ensures checked == old(checked) + |VisitsOfMembers(ms, |ms|, path)|
      decreases ms, 2
    {
      ghost var done: seq<Visit> := [];
      for k := 0 to |ms|
        invariant done == VisitsOfMembers(ms, k, path)
        invariant issues == old(issues) + IssuesOf(done, options)
        invariant checked == old(checked) + |done|
      {
        WalkMember(ms[k], path);
        ghost var next := VisitsOfMember(ms[k], path);
        IssuesExtend(old(issues), done, next, options);
        done := done + next;
      }
    }

    method WalkMember(m: Member, path: Text)
      modifies this
      ensures issues == old(issues) + IssuesOf(VisitsOfMember(m, path), options)
      ensures checked == old(checked) + |VisitsOfMember(m, path)|
      decreases m, 1
    {
      var child := ChildPath(path, Key(m.key));
      ghost var visit, below := Visit(m.key, child), Visits(m.value, child);
      Check(m.key, child);
      Walk(m.value, child);
      IssuesThen(old(issues), visit, below, options);
      assert VisitsOfMember(m, path) == [visit] + below;
    }
  }

  lemma IssuesOfOne(visit: Visit, options: Options)
    ensures IssuesOf([visit], options) == IssuesAt(visit, options)
  {
    assert [visit][..0] == [];
  }

  /** What is found at one string and then below it. */
  lemma IssuesThen(before: seq<Issue>, visit: Visit, below: seq<Visit>, options: Options)
    ensures (before + IssuesAt(visit, options)) + IssuesOf(below, options) ==
            before + IssuesOf([visit] + below, options)
  {
    IssuesAppend([visit], below, options);
    IssuesOfOne(visit, options);
  }

  lemma IssuesAppend(a: seq<Visit>, b: seq<Visit>, options: Options)
    ensures IssuesOf(a + b, options) == IssuesOf(a, options) + IssuesOf(b, options)
  {
    if b == [] {
      assert a + b == a;
    } else {
      var n := |b| - 1;
      IssuesAppend(a, b[..n], options);
      assert (a + b)[..|a + b| - 1] == a + b[..n];
    }
  }

  lemma IssuesExtend(found: seq<Issue>, a: seq<Visit>, b: seq<Visit>, options: Options)
    ensures found + IssuesOf(a, options) + IssuesOf(b, options) == found + IssuesOf(a + b, options)
  {
    IssuesAppend(a, b, options);
  }

  /** `sanitizeValue`: the issues and how many strings were checked. */
  method SanitizeValue(v: Json, options: Options) returns (issues: seq<Issue>, checked: nat)
    ensures issues == IssuesOf(Visits(v, []), options)
    ensures checked == |Visits(v, [])|
  {
    var scan := new Rescan(options);
    scan.Walk(v, []);
    issues, checked := scan.issues, scan.checked;
  }

  // ---------------------------------------------------------------------------
  // Exactly the strings of the value are checked, each under the path that resolves to it

  /** The node at the address is that string, or it is the member that string names. */
  predicate Owns(root: Json, address: seq<Step>, text: Text) {
    && At(root, address).Some?
    && (At(root, address).value == Str(text)
        || (address != [] && address[|address| - 1] == Key(text)))
  }

  lemma AtAppend(root: Json, a: seq<Step>, step: Step)
    requires At(root, a).Some?
    ensures At(root, a + [step]) == Child(At(root, a).value, step)
    decreases |a|
  {
    if a == [] {
      assert [] + [step] == [step];
    } else {
      AtAppend(Child(root, a[0]).value, a[1..], step);
      assert (a + [step])[1..] == a[1..] + [step];
    }
  }

  lemma ChildPathOf(a: seq<Step>, step: Step)
    ensures ChildPath(PathOf(a), step) == PathOf(a + [step])
  {
    assert (a + [step])[..|a + [step]| - 1] == a;
  }

  ghost predicate Located(root: Json, visit: Visit) {
    exists b :: visit.path == PathOf(b) && Owns(root, b, visit.text)
  }

  /** Every visit below the node at `a` is a string of the root, under its own path. */
  lemma {:induction false} VisitsLocated(root: Json, a: seq<Step>, v: Json)
    requires WellFormed(v) && At(root, a) == Some(v)
    ensures forall x :: x in Visits(v, PathOf(a)) ==> Located(root, x)
    decreases v, 1
  {
    match v
    case Str(text) => assert Owns(root, a, text);
    case Array(items) => ItemsLocated(root, a, items, |items|);
    case Object(ms) => MembersLocated(root, a, ms, |ms|);
    case _ =>
  }

  lemma {:induction false} ItemsLocated(root: Json, a: seq<Step>, items: seq<Json>, k: nat)
    requires k <= |items| && WellFormed(Array(items)) && At(root, a) == Some(Array(items))
    ensures forall x :: x in VisitsOfItems(items, k, PathOf(a)) ==> Located(root, x)
    decreases items, k
  {
    if k > 0 {
      ItemsLocated(root, a, items, k - 1);
      AtAppend(root, a, Index(k - 1));
      ChildPathOf(a, Index(k - 1));
      VisitsLocated(root, a + [Index(k - 1)], items[k - 1]);
    }
  }

  lemma {:induction false} MembersLocated(root: Json, a: seq<Step>, ms: seq<Member>, k: nat)
    requires k <= |ms| && WellFormed(Object(ms)) && At(root, a) == Some(Object(ms))
    ensures forall x :: x in VisitsOfMembers(ms, k, PathOf(a)) ==> Located(root, x)
    decreases ms, k
  {
    if k > 0 {
      MembersLocated(root, a, ms, k - 1);
      MemberLocated(root, a, ms, k - 1);
    }
  }

  lemma {:induction false} MemberLocated(root: Json, a: seq<Step>, ms: seq<Member>, i: nat)
    requires i < |ms| && WellFormed(Object(ms)) && At(root, a) == Some(Object(ms))
    ensures forall x :: x in VisitsOfMember(ms[i], PathOf(a)) ==> Located(root, x)
    decreases ms, i
  {
    var step := Key(ms[i].key);
    AtAppend(root, a, step);
    LookupMember(ms, i);
    ChildPathOf(a, step);
    VisitsLocated(root, a + [step], ms[i].value);
    assert Owns(root, a + [step], ms[i].key);
  }

  lemma ItemVisited(items: seq<Json>, i: nat, k: nat, path: Text, x: Visit)
    requires i < k <= |items| && x in Visits(items[i], ChildPath(path, Index(i)))
    ensures x in VisitsOfItems(items, k, path)
  {
    if i < k - 1 {
      ItemVisited(items, i, k - 1, path, x);
    }
  }

  lemma MemberVisited(ms: seq<Member>, i: nat, k: nat, path: Text, x: Visit)
    requires i < k <= |ms| && x in VisitsOfMember(ms[i], path)
    ensures x in VisitsOfMembers(ms, k, path)
  {
    if i < k - 1 {
      MemberVisited(ms, i, k - 1, path, x);
    }
  }

  lemma ChildVisited(v: Json, step: Step, path: Text, x: Visit)
    requires Child(v, step).Some? && x in Visits(Child(v, step).value, ChildPath(path, step))
    ensures x in Visits(v, path)
  {
    match v
    case Array(items) => ItemVisited(items, step.i, |items|, path, x);
    case Object(ms) =>
      var i :| 0 <= i < |ms| && ms[i] == Member(step.key, Child(v, step).value);
      MemberVisited(ms, i, |ms|, path, x);
  }

  lemma KeyVisited(ms: seq<Member>, key: Text, path: Text)
    requires Lookup(ms, key).Some?
    ensures Visit(key, ChildPath(path, Key(key))) in Visits(Object(ms), path)
  {
    var i :| 0 <= i < |ms| && ms[i] == Member(key, Lookup(ms, key).value);
    assert VisitsOfMember(ms[i], path)[0] == Visit(key, ChildPath(path, Key(key)));
    MemberVisited(ms, i, |ms|, path, Visit(key, ChildPath(path, Key(key))));
  }

  /** No string escapes: walking down from the node at `a` meets the owner at `a + b`. */
  lemma {:induction false} StringVisited(root: Json, a: seq<Step>, v: Json, b: seq<Step>, text: Text)
    requires At(root, a) == Some(v) && At(v, b).Some?
    requires At(v, b).value == Str(text) || (b != [] && b[|b| - 1] == Key(text))
    ensures Visit(text, PathOf(a + b)) in Visits(v, PathOf(a))
    decreases |b|
  {
    if b == [] {
      assert a + b == a;
    } else {
      var step, below := b[0], a + [b[0]];
      ChildPathOf(a, step);
      assert a + b == below + b[1..];
      if |b| == 1 && step == Key(text) {
        assert a + b == below;
        KeyVisited(v.members, text, PathOf(a));
      } else {
        AtAppend(root, a, step);
        StringVisited(root, below, Child(v, step).value, b[1..], text);
        ChildVisited(v, step, PathOf(a), Visit(text, PathOf(below + b[1..])));
      }
    }
  }

  /** A string is checked under a path exactly when the path is that of a node or member that
      holds it. */
  lemma VisitsExact(root: Json, text: Text, path: Text)
    requires WellFormed(root)
    ensures Visit(text, path) in Visits(root, [])
       <==> exists b :: path == PathOf(b) && Owns(root, b, text)
  {
    VisitsLocated(root, [], root);
    if Visit(text, path) in Visits(root, []) {
      assert Located(root, Visit(text, path));
    }
    if b :| path == PathOf(b) && Owns(root, b, text) {
      OwnedVisited(root, b, text);
    }
  }

  lemma OwnedVisited(root: Json, b: seq<Step>, text: Text)
    requires Owns(root, b, text)
    ensures Visit(text, PathOf(b)) in Visits(root, [])
  {
    assert At(root, []) == Some(root) && PathOf([]) == [];
    StringVisited(root, [], root, b, text);
    assert [] + b == b;
  }

  lemma IssueFromVisit(visits: seq<Visit>, options: Options, issue: Issue)
    ensures issue in IssuesOf(visits, options)
       <==> exists x :: x in visits && x.path == issue.path && Trips(x.text, issue.rule, options)
  {
    if visits != [] {
      var n := |visits| - 1;
      IssueFromVisit(visits[..n], options, issue);
      assert visits == visits[..n] + [visits[n]];
      var last := visits[n];
      assert issue in IssuesAt(last, options)
        <==> last.path == issue.path && Trips(last.text, issue.rule, options);
    }
  }

  /** A path is reported for a rule exactly when it resolves to a node that is, or is named by,
      a string that trips the rule. */
  lemma IssuesExact(root: Json, options: Options, issue: Issue)
    requires WellFormed(root)
    ensures issue in IssuesOf(Visits(root, []), options)
       <==> exists b, text :: issue.path == PathOf(b) && Owns(root, b, text)
                              && (if issue.rule == StringTooLong then |text| > options.maxStringLength
                                  else options.secret(text))
    ensures issue in IssuesOf(Visits(root, []), options) ==> Resolve(root, issue.path).Some?
  {
    IssueFromVisit(Visits(root, []), options, issue);
    if issue in IssuesOf(Visits(root, []), options) {
      var x :| x in Visits(root, []) && x.path == issue.path && Trips(x.text, issue.rule, options);
      VisitsExact(root, x.text, x.path);
      var b :| x.path == PathOf(b) && Owns(root, b, x.text);
      PathResolves(root, b);
    }
    if exists b, text :: issue.path == PathOf(b) && Owns(root, b, text) && Trips(text, issue.rule, options) {
      var b, text :| issue.path == PathOf(b) && Owns(root, b, text) && Trips(text, issue.rule, options);
      VisitsExact(root, text, issue.path);
      var x := Visit(text, issue.path);
      assert x in Visits(root, []);
    }
  }
}
