/** getGroupName in ts-dns.go: a query name is routed by the suffix table,
    then by the classifier (the gfwlist matcher), then to the default group.
    The suffix table is a Go map, so when several suffixes match the winner
    depends on the map's iteration order; that order is a parameter here. */
module Router {
  import opened Base
  import opened Strs

  datatype Route = Route(group: string, reason: string)

  /** The classifier's answer for a name: (blocked, matched). */
  type Classifier = string -> (bool, bool)

  /** No element occurs twice in `xs`. */
  ghost predicate Distinct(xs: seq<string>) {
    forall i, j :: 0 <= i < j < |xs| ==> xs[i] != xs[j]
  }

  /** `order` is one iteration order of `table`: `range` visits every key
      exactly once, and nothing else. */
  ghost predicate IsIterationOrder(order: seq<string>, table: map<string, string>) {
    Distinct(order) && forall s :: s in table <==> s in order
  }

  /** `xs` with every occurrence of `s` removed, the rest in order. */
  function Without(xs: seq<string>, s: string): (r: seq<string>)
    ensures forall x :: x in r <==> x in xs && x != s
    ensures Distinct(xs) ==> Distinct(r)
    decreases |xs|
  {
    if |xs| == 0 then []
    else if xs[0] == s then Without(xs[1..], s)
    else
      var rest := Without(xs[1..], s);
      assert Distinct(xs) ==> Distinct(xs[1..]) by {
        if Distinct(xs) {
          forall i, j | 0 <= i < j < |xs[1..]| ensures xs[1..][i] != xs[1..][j] {
            assert xs[1..][i] == xs[i + 1] && xs[1..][j] == xs[j + 1];
          }
        }
      }
      var r := [xs[0]] + rest;
      assert Distinct(xs) ==> Distinct(r) by {
        if Distinct(xs) {
          assert xs[0] !in xs[1..] by {
            forall k | 0 <= k < |xs[1..]| ensures xs[1..][k] != xs[0] {
              assert xs[1..][k] == xs[k + 1];
            }
          }
          forall i, j | 0 <= i < j < |r| ensures r[i] != r[j] {
            assert r[j] == rest[j - 1];
            if i > 0 {
              assert r[i] == rest[i - 1];
            }
          }
        }
      }
      r
  }

  /** Some suffix of the table matches the name. */
  ghost predicate SuffixMatches(table: map<string, string>, domain: string) {
    exists s :: s in table && HasSuffix(domain, s)
  }

  /** The first suffix of `order` that the name ends with. */
  function FirstSuffix(order: seq<string>, domain: string): (r: Option<string>)
    ensures r.Some? ==> r.value in order && HasSuffix(domain, r.value)
    ensures r.None? ==> forall i :: 0 <= i < |order| ==> !HasSuffix(domain, order[i])
    decreases |order|
  {
    if |order| == 0 then None
    else if HasSuffix(domain, order[0]) then Some(order[0])
    else FirstSuffix(order[1..], domain)
  }

  /** The verdict of the classifier when no suffix matched. */
  function ClassifierRoute(verdict: (bool, bool)): (r: Route)
    ensures verdict.1 && verdict.0 ==> r == Route("dirty", "GFWList")
    ensures verdict.1 && !verdict.0 ==> r == Route("clean", "GFWList")
    ensures !verdict.1 ==> r == Route("clean", "default")
  {
    var (blocked, matched) := verdict;
    if matched then (if blocked then Route("dirty", "GFWList") else Route("clean", "GFWList"))
    else Route("clean", "default")
  }

  /** getGroupName for one iteration order of the suffix table. */
  function GetGroupName(table: map<string, string>, order: seq<string>, classify: Classifier, domain: string): (r: Route)
    requires IsIterationOrder(order, table)
    // a matching suffix decides: its group, with reason "suffix " + suffix
    ensures SuffixMatches(table, domain) ==>
      exists s :: s in table && HasSuffix(domain, s) && r == Route(table[s], "suffix " + s)
    // otherwise the classifier decides
    ensures !SuffixMatches(table, domain) && classify(domain).1 && classify(domain).0 ==>
      r == Route("dirty", "GFWList")
    ensures !SuffixMatches(table, domain) && classify(domain).1 && !classify(domain).0 ==>
      r == Route("clean", "GFWList")
    ensures !SuffixMatches(table, domain) && !classify(domain).1 ==> r == Route("clean", "default")
  {
    match FirstSuffix(order, domain)
    case Some(s) => Route(table[s], "suffix " + s)
    case None =>
      assert !SuffixMatches(table, domain) by {
        forall s | s in table ensures !HasSuffix(domain, s) {
          var i :| 0 <= i < |order| && order[i] == s;
        }
      }
      ClassifierRoute(classify(domain))
  }

  /** When a suffix matches, the classifier is not consulted: any two
      classifiers give the same route. */
  lemma SuffixMatchIgnoresClassifier(table: map<string, string>, order: seq<string>,
                                     c1: Classifier, c2: Classifier, domain: string)
    requires IsIterationOrder(order, table)
    requires SuffixMatches(table, domain)
    ensures GetGroupName(table, order, c1, domain) == GetGroupName(table, order, c2, domain)
  {
    var s :| s in table && HasSuffix(domain, s);
    var i :| 0 <= i < |order| && order[i] == s;
    assert FirstSuffix(order, domain).Some?;
  }

  /** Every matching suffix can win: the order that visits it first and the
      other keys after it is an iteration order of the table, and under it
      the route is that suffix's group. */
  lemma AnyMatchingSuffixCanWin(table: map<string, string>, order: seq<string>,
                                classify: Classifier, domain: string, s: string)
    requires IsIterationOrder(order, table)
    requires s in table && HasSuffix(domain, s)
    ensures IsIterationOrder([s] + Without(order, s), table)
    ensures GetGroupName(table, [s] + Without(order, s), classify, domain) == Route(table[s], "suffix " + s)
  {
    var first := [s] + Without(order, s);
    assert Distinct(first) by {
      forall i, j | 0 <= i < j < |first| ensures first[i] != first[j] {
        assert first[j] == Without(order, s)[j - 1];
        if i > 0 {
          assert first[i] == Without(order, s)[i - 1];
        }
      }
    }
    assert first[0] == s;
  }

  /** A domain that ends in no configured suffix and that the classifier
      does not know goes to the clean group. */
  lemma UnknownDomainIsClean(table: map<string, string>, order: seq<string>, classify: Classifier, domain: string)
    requires IsIterationOrder(order, table)
    requires forall s :: s in table ==> !HasSuffix(domain, s)
    requires !classify(domain).1
    ensures GetGroupName(table, order, classify, domain) == Route("clean", "default")
  {
  }
}
