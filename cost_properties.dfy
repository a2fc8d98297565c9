/**
 * What the aggregation promises, stated against independent definitions:
 * reading the groups is all-or-nothing, the project keys are exactly the
 * normalised tags, each total is the sum of that project's amounts, each
 * resource entry is the last one written for its service key, and totals
 * match resource costs only when no (project, service key) pair repeats.
 */
module CostProperties {
  import opened Wrappers
  import PyStr
  import opened ProjectSpendCost

  /** Reads every group, or fails if any one of them cannot be read. */
  function ParseAll(groups: seq<Group>): (r: Option<seq<Row>>)
    ensures r.None? <==> exists i :: 0 <= i < |groups| && ParseGroup(groups[i]).None?
    ensures r.Some? ==> |r.value| == |groups|
    ensures r.Some? ==> forall i :: 0 <= i < |groups| ==> ParseGroup(groups[i]) == Some(r.value[i])
    decreases |groups|
  {
    if |groups| == 0 then Some([])
    else
      match ParseGroup(groups[0])
      case None => None
      case Some(row) =>
        match ParseAll(groups[1..])
        case None =>
          assert forall i :: 1 <= i < |groups| ==> groups[1..][i - 1] == groups[i];
          None
        case Some(rows) =>
          assert forall i :: 1 <= i < |groups| ==> groups[1..][i - 1] == groups[i];
          Some([row] + rows)
  }

  /** Stores already-read rows in order, from dictionary `data` on. */
  function FoldRows(data: CostData, rows: seq<Row>): CostData
    decreases |rows|
  {
    if |rows| == 0 then data else FoldRows(AddRow(data, rows[0]), rows[1..])
  }

  /** The projects the rows name. */
  ghost function Projects(rows: seq<Row>): set<string>
  {
    set r | r in rows :: r.project
  }

  /** The service keys the rows name together with project `p`. */
  ghost function Services(rows: seq<Row>, p: string): set<string>
  {
    set r | r in rows && r.project == p :: r.service
  }

  /** The sum of the amounts of the rows filed under project `p`. */
  function TotalFor(rows: seq<Row>, p: string): real
    decreases |rows|
  {
    if |rows| == 0 then 0.0
    else (if rows[0].project == p then rows[0].amount else 0.0) + TotalFor(rows[1..], p)
  }

  /** Row `i` is the last one with project `p` and service key `k`. */
  ghost predicate LastWriteAt(rows: seq<Row>, p: string, k: string, i: int)
  {
    && 0 <= i < |rows|
    && rows[i].project == p && rows[i].service == k
    && forall j :: i < j < |rows| ==> !(rows[j].project == p && rows[j].service == k)
  }

  /** No (project, service key) pair occurs in two rows. */
  ghost predicate UniquePairs(rows: seq<Row>)
  {
    forall i, j :: 0 <= i < j < |rows| && rows[i].project == rows[j].project ==> rows[i].service != rows[j].service
  }

  /** Some key of a non-empty resource table. */
  ghost function AnyKey(resources: map<string, ResourceCost>): (k: string)
    requires |resources| > 0
    ensures k in resources
  {
    var k :| k in resources; k
  }

  /** The sum of the resource costs of a resource table. */
  ghost function SumCosts(resources: map<string, ResourceCost>): real
    decreases |resources|
  {
    if |resources| == 0 then 0.0
    else
      var k := AnyKey(resources);
      resources[k].resourceCost + SumCosts(resources - {k})
  }

  /** Every project's total equals the sum of its resource costs. */
  ghost predicate TotalsMatchResources(data: CostData)
  {
    forall p :: p in data ==> data[p].projectCost == SumCosts(data[p].resources)
  }

  // ---------------------------------------------------------------------
  // All-or-nothing: the fold is reading everything, then storing everything.

  /** Folding the groups is parsing all of them and then storing the rows. */
  lemma {:induction false} FoldIsParseThenStore(data: CostData, groups: seq<Group>)
    ensures FoldGroups(data, groups) ==
      if ParseAll(groups).None? then None else Some(FoldRows(data, ParseAll(groups).value))
    decreases |groups|
  {
    if |groups| > 0 {
      match ParseGroup(groups[0])
      case None =>
      case Some(row) =>
        FoldIsParseThenStore(AddRow(data, row), groups[1..]);
        match ParseAll(groups[1..])
        case None =>
        case Some(rows) =>
          assert ([row] + rows)[1..] == rows;
    }
  }

  /**
   * The whole call yields `None` exactly when the billing call raised,
   * `ResultsByTime` is empty, or some group of the first bucket has fewer
   * than two keys or a tag key with no `$`; otherwise it is the rows stored
   * into an empty dictionary.
   */
  lemma AllOrNothing(response: Option<Response>)
    ensures Aggregate(response).None? <==>
      || response.None?
      || |response.value.resultsByTime| == 0
      || exists i :: 0 <= i < |response.value.resultsByTime[0]| &&
           var g := response.value.resultsByTime[0][i];
           |g.keys| < 2 || Separator !in g.keys[0]
    ensures Aggregate(response).Some? ==>
      var rows := ParseAll(response.value.resultsByTime[0]);
      rows.Some? && Aggregate(response) == Some(FoldRows(map[], rows.value))
  {
    if response.Some? && |response.value.resultsByTime| > 0 {
      var groups := response.value.resultsByTime[0];
      FoldIsParseThenStore(map[], groups);
      if ParseAll(groups).None? {
        var i :| 0 <= i < |groups| && ParseGroup(groups[i]).None?;
        assert |groups[i].keys| < 2 || Separator !in groups[i].keys[0];
      }
    }
  }

  /** Only the first time bucket is read, and an empty group list gives an empty dictionary. */
  lemma FirstBucketOnly(groups: seq<Group>, later: seq<seq<Group>>, otherLater: seq<seq<Group>>)
    ensures Aggregate(Some(Response([groups] + later))) == Aggregate(Some(Response([groups] + otherLater)))
    ensures Aggregate(Some(Response([[]] + later))) == Some(map[])
    ensures Aggregate(Some(Response([]))) == None
  {
  }

  // ---------------------------------------------------------------------
  // What the stored rows produce.

  /** The dictionary's keys are the starting keys plus the rows' projects; nothing else. */
  lemma {:induction false} FoldRowsKeys(data: CostData, rows: seq<Row>)
    ensures FoldRows(data, rows).Keys == data.Keys + Projects(rows)
    decreases |rows|
  {
    if |rows| > 0 {
      FoldRowsKeys(AddRow(data, rows[0]), rows[1..]);
      assert rows == [rows[0]] + rows[1..];
      assert Projects(rows) == {rows[0].project} + Projects(rows[1..]);
    }
  }

  /** Each total is its starting total (zero for a new project) plus the project's amounts. */
  lemma {:induction false} FoldRowsTotal(data: CostData, rows: seq<Row>, p: string)
    requires p in FoldRows(data, rows)
    ensures FoldRows(data, rows)[p].projectCost ==
      (if p in data then data[p].projectCost else 0.0) + TotalFor(rows, p)
    decreases |rows|
  {
    if |rows| > 0 {
      FoldRowsTotal(AddRow(data, rows[0]), rows[1..], p);
    } else {
    }
  }

  /** Each resource table's keys are its starting keys plus the services seen with that project. */
  lemma {:induction false} FoldRowsServices(data: CostData, rows: seq<Row>, p: string)
    requires p in FoldRows(data, rows)
    ensures FoldRows(data, rows)[p].resources.Keys ==
      (if p in data then data[p].resources.Keys else {}) + Services(rows, p)
    decreases |rows|
  {
    if |rows| > 0 {
      var data' := AddRow(data, rows[0]);
      FoldRowsKeys(data', rows[1..]);
      FoldRowsServices(data', rows[1..], p);
      assert rows == [rows[0]] + rows[1..];
      assert Services(rows, p) ==
        (if rows[0].project == p then {rows[0].service} else {}) + Services(rows[1..], p);
    }
  }

  /**
   * A resource entry holds the amount of the last row with that project and
   * service key, or, when no row has that pair, the starting entry.
   */
  lemma {:induction false} FoldRowsResource(data: CostData, rows: seq<Row>, p: string, k: string)
    requires p in FoldRows(data, rows) && k in FoldRows(data, rows)[p].resources
    ensures
      || (exists i :: LastWriteAt(rows, p, k, i) &&
            FoldRows(data, rows)[p].resources[k] == ResourceCost(rows[i].amount, ResourceType(k)))
      || (&& (forall j :: 0 <= j < |rows| ==> !(rows[j].project == p && rows[j].service == k))
          && p in data && k in data[p].resources
          && FoldRows(data, rows)[p].resources[k] == data[p].resources[k])
    decreases |rows|
  {
    if |rows| > 0 {
      var data' := AddRow(data, rows[0]);
      var rest := rows[1..];
      FoldRowsResource(data', rest, p, k);
      if i :| LastWriteAt(rest, p, k, i) &&
             FoldRows(data', rest)[p].resources[k] == ResourceCost(rest[i].amount, ResourceType(k)) {
        assert LastWriteAt(rows, p, k, i + 1);
      } else if rows[0].project == p && rows[0].service == k {
        assert LastWriteAt(rows, p, k, 0);
      } else {
        assert forall j :: 0 <= j < |rows| ==> !(rows[j].project == p && rows[j].service == k) by {
          forall j | 1 <= j < |rows| ensures rows[j] == rest[j - 1] { }
        }
      }
    }
  }

  /**
   * Everything the source promises per project, for the dictionary the call
   * returns: its keys are exactly the normalised tags; a project's total is
   * the sum of its amounts; its resource keys are exactly its service keys;
   * and each resource entry is written by the last group with that pair.
   */
  lemma AggregateContents(rows: seq<Row>, p: string, k: string)
    ensures FoldRows(map[], rows).Keys == Projects(rows)
    ensures p in FoldRows(map[], rows) ==>
      && FoldRows(map[], rows)[p].projectCost == TotalFor(rows, p)
      && FoldRows(map[], rows)[p].resources.Keys == Services(rows, p)
    ensures p in FoldRows(map[], rows) && k in FoldRows(map[], rows)[p].resources ==>
      exists i :: LastWriteAt(rows, p, k, i) &&
        FoldRows(map[], rows)[p].resources[k] == ResourceCost(rows[i].amount, ResourceType(k))
  {
    FoldRowsKeys(map[], rows);
    if p in FoldRows(map[], rows) {
      FoldRowsTotal(map[], rows, p);
      FoldRowsServices(map[], rows, p);
      if k in FoldRows(map[], rows)[p].resources {
        FoldRowsResource(map[], rows, p, k);
      }
    }
  }

  // ---------------------------------------------------------------------
  // Totals and resource costs.

  /** Removing one entry from a resource table takes its cost out of the sum. */
  lemma {:induction false} SumCostsRemove(resources: map<string, ResourceCost>, k: string)
    requires k in resources
    ensures SumCosts(resources) == resources[k].resourceCost + SumCosts(resources - {k})
    decreases |resources|
  {
    var j := AnyKey(resources);
    if j != k {
      var withoutJ, withoutK := resources - {j}, resources - {k};
      SumCostsRemove(withoutJ, k);
      SumCostsRemove(withoutK, j);
      assert withoutJ - {k} == withoutK - {j};
    }
  }

  /** Adding an entry under a fresh key adds its cost to the sum. */
  lemma SumCostsAdd(resources: map<string, ResourceCost>, k: string, v: ResourceCost)
    requires k !in resources
    ensures SumCosts(resources[k := v]) == SumCosts(resources) + v.resourceCost
  {
    SumCostsRemove(resources[k := v], k);
    assert resources[k := v] - {k} == resources;
  }

  /**
   * When no row repeats a (project, service key) pair already stored or
   * stored by another row, every total stays equal to the sum of its
   * resource costs.
   */
  lemma {:induction false} FoldRowsKeepsTotals(data: CostData, rows: seq<Row>)
    requires TotalsMatchResources(data)
    requires UniquePairs(rows)
    requires forall i :: 0 <= i < |rows| && rows[i].project in data ==>
      rows[i].service !in data[rows[i].project].resources
    ensures TotalsMatchResources(FoldRows(data, rows))
    decreases |rows|
  {
    if |rows| > 0 {
      var row := rows[0];
      var data' := AddRow(data, row);
      if row.project in data {
        SumCostsAdd(data[row.project].resources, row.service, ResourceCost(row.amount, ResourceType(row.service)));
      } else {
        SumCostsAdd(map[], row.service, ResourceCost(row.amount, ResourceType(row.service)));
      }
      assert TotalsMatchResources(data');
      var rest := rows[1..];
      forall i | 0 <= i < |rest| && rest[i].project in data'
        ensures rest[i].service !in data'[rest[i].project].resources
      {
        assert rest[i] == rows[i + 1];
      }
      FoldRowsKeepsTotals(data', rest);
    }
  }

  /**
   * The total of a project equals the sum of its resource costs when the
   * (project, service key) pairs of the input are unique.
   */
  lemma TotalIsSumOfResources(rows: seq<Row>, p: string)
    requires UniquePairs(rows)
    requires p in FoldRows(map[], rows)
    ensures FoldRows(map[], rows)[p].projectCost == SumCosts(FoldRows(map[], rows)[p].resources)
  {
    FoldRowsKeepsTotals(map[], rows);
  }

  /**
   * Two rows with the same project and service key: only the later amount
   * survives in the resource table while the total holds both, so the total
   * differs from the sum of the resource costs whenever the earlier amount
   * is not zero.
   */
  lemma OverwriteKeepsLastAmount(p: string, k: string, first: real, second: real)
    ensures
      var data := FoldRows(map[], [Row(p, k, first), Row(p, k, second)]);
      && p in data
      && data[p].projectCost == first + second
      && data[p].resources == map[k := ResourceCost(second, ResourceType(k))]
      && (first != 0.0 ==> data[p].projectCost != SumCosts(data[p].resources))
  {
    var rows := [Row(p, k, first), Row(p, k, second)];
    var once := AddRow(map[], rows[0]);
    var twice := AddRow(once, rows[1]);
    assert rows[1..] == [rows[1]] && [rows[1]][1..] == [];
    assert FoldRows(map[], rows) == FoldRows(once, [rows[1]]) == FoldRows(twice, []) == twice;
    var resources := map[k := ResourceCost(second, ResourceType(k))];
    assert twice[p].resources == resources;
    SumCostsAdd(map[], k, ResourceCost(second, ResourceType(k)));
    assert map[][k := ResourceCost(second, ResourceType(k))] == resources;
  }

  // ---------------------------------------------------------------------
  // Totals do not depend on the order of the groups.

  /** The total over a concatenation is the sum of the totals. */
  lemma {:induction false} TotalForAppend(a: seq<Row>, b: seq<Row>, p: string)
    ensures TotalFor(a + b, p) == TotalFor(a, p) + TotalFor(b, p)
    decreases |a|
  {
    if |a| > 0 {
      TotalForAppend(a[1..], b, p);
      assert (a + b)[1..] == a[1..] + b;
    } else {
      assert a + b == b;
    }
  }

  /** Rows that are a permutation of each other give the same total for every project. */
  lemma {:induction false} TotalForPermutation(a: seq<Row>, b: seq<Row>, p: string)
    requires multiset(a) == multiset(b)
    ensures TotalFor(a, p) == TotalFor(b, p)
    decreases |a|
  {
    if |a| == 0 {
      assert |b| == |multiset(b)| == 0;
    } else {
      var x := a[0];
      assert x in multiset(b);
      var i :| 0 <= i < |b| && b[i] == x;
      var b' := b[..i] + b[i + 1..];
      assert b == b[..i] + [x] + b[i + 1..];
      assert a == [x] + a[1..];
      assert multiset(a) == multiset([x]) + multiset(a[1..]);
      assert multiset(b) == multiset([x]) + multiset(b');
      assert multiset(a[1..]) == multiset(a) - multiset([x]);
      assert multiset(b') == multiset(b) - multiset([x]);
      TotalForPermutation(a[1..], b', p);
      TotalForAppend(b[..i] + [x], b[i + 1..], p);
      TotalForAppend(b[..i], [x], p);
      TotalForAppend(b[..i], b[i + 1..], p);
      assert [x][1..] == [];
    }
  }

  /** Reordering the rows changes neither the project keys nor any total. */
  lemma TotalsIgnoreOrder(a: seq<Row>, b: seq<Row>)
    requires multiset(a) == multiset(b)
    ensures FoldRows(map[], a).Keys == FoldRows(map[], b).Keys
    ensures forall p :: p in FoldRows(map[], a) ==>
      FoldRows(map[], a)[p].projectCost == FoldRows(map[], b)[p].projectCost
  {
    FoldRowsKeys(map[], a);
    FoldRowsKeys(map[], b);
    forall r | r in a ensures r in b { assert r in multiset(a); }
    forall r | r in b ensures r in a { assert r in multiset(b); }
    assert Projects(a) == Projects(b);
    forall p | p in FoldRows(map[], a)
      ensures FoldRows(map[], a)[p].projectCost == FoldRows(map[], b)[p].projectCost
    {
      FoldRowsTotal(map[], a, p);
      FoldRowsTotal(map[], b, p);
      TotalForPermutation(a, b, p);
    }
  }

  /** Rows that read group by group are what reading all the groups gives. */
  lemma ParseAllExactly(groups: seq<Group>, rows: seq<Row>)
    requires |rows| == |groups|
    requires forall i :: 0 <= i < |groups| ==> ParseGroup(groups[i]) == Some(rows[i])
    ensures ParseAll(groups) == Some(rows)
  {
    assert ParseAll(groups).Some?;
    assert ParseAll(groups).value == rows;
  }

  /** Reading two lists of groups one after the other is reading their concatenation. */
  lemma ParseAllAppend(a: seq<Group>, b: seq<Group>)
    ensures ParseAll(a + b) ==
      if ParseAll(a).None? || ParseAll(b).None? then None
      else Some(ParseAll(a).value + ParseAll(b).value)
  {
    var ab := a + b;
    if ParseAll(a).None? {
      var i :| 0 <= i < |a| && ParseGroup(a[i]).None?;
      assert ab[i] == a[i];
    } else if ParseAll(b).None? {
      var i :| 0 <= i < |b| && ParseGroup(b[i]).None?;
      assert ab[|a| + i] == b[i];
    } else {
      var ra := ParseAll(a).value;
      var rb := ParseAll(b).value;
      forall i | 0 <= i < |ab| ensures ParseGroup(ab[i]) == Some((ra + rb)[i]) {
        if i < |a| {
          assert ab[i] == a[i];
        } else {
          assert ab[i] == b[i - |a|];
        }
      }
      ParseAllExactly(ab, ra + rb);
    }
  }

  /** Moving one group to the front changes neither failure nor the multiset of rows. */
  lemma MoveToFront(pre: seq<Group>, x: Group, post: seq<Group>)
    ensures ParseAll(pre + [x] + post).None? <==> ParseAll([x] + (pre + post)).None?
    ensures ParseAll(pre + [x] + post).Some? ==>
      multiset(ParseAll(pre + [x] + post).value) == multiset(ParseAll([x] + (pre + post)).value)
  {
    ParseAllAppend(pre, [x]);
    ParseAllAppend(pre + [x], post);
    ParseAllAppend(pre, post);
    ParseAllAppend([x], pre + post);
  }

  /** Reading a reordering of the groups fails alike, and otherwise yields a reordering of the rows. */
  lemma {:induction false} ParseAllPermutation(g1: seq<Group>, g2: seq<Group>)
    requires multiset(g1) == multiset(g2)
    ensures ParseAll(g1).None? <==> ParseAll(g2).None?
    ensures ParseAll(g1).Some? ==> multiset(ParseAll(g1).value) == multiset(ParseAll(g2).value)
    decreases |g1|
  {
    if |g1| > 0 {
      var x := g1[0];
      assert x in multiset(g2);
      var j :| 0 <= j < |g2| && g2[j] == x;
      var rest2 := g2[..j] + g2[j + 1..];
      assert g2 == g2[..j] + [x] + g2[j + 1..];
      assert g1 == [x] + g1[1..];
      assert multiset(g1) == multiset([x]) + multiset(g1[1..]);
      assert multiset(g2) == multiset([x]) + multiset(rest2);
      assert multiset(g1[1..]) == multiset(g1) - multiset([x]);
      assert multiset(rest2) == multiset(g2) - multiset([x]);
      ParseAllPermutation(g1[1..], rest2);
      MoveToFront(g2[..j], x, g2[j + 1..]);
      ParseAllAppend([x], g1[1..]);
      ParseAllAppend([x], rest2);
    }
  }

  /**
   * Reordering the groups of the first bucket neither changes whether the
   * call fails nor, when it succeeds, the project keys or any project total.
   */
  lemma AggregateIgnoresOrder(g1: seq<Group>, g2: seq<Group>)
    requires multiset(g1) == multiset(g2)
    ensures Aggregate(Some(Response([g1]))).None? <==> Aggregate(Some(Response([g2]))).None?
    ensures Aggregate(Some(Response([g1]))).Some? ==>
      && Aggregate(Some(Response([g1]))).value.Keys == Aggregate(Some(Response([g2]))).value.Keys
      && forall p :: p in Aggregate(Some(Response([g1]))).value ==>
           Aggregate(Some(Response([g1]))).value[p].projectCost ==
           Aggregate(Some(Response([g2]))).value[p].projectCost
  {
    FoldIsParseThenStore(map[], g1);
    FoldIsParseThenStore(map[], g2);
    ParseAllPermutation(g1, g2);
    if ParseAll(g1).Some? {
      TotalsIgnoreOrder(ParseAll(g1).value, ParseAll(g2).value);
    }
  }

  // ---------------------------------------------------------------------
  // Tag keys and service keys as Cost Explorer writes them.

  /** A key of the form `name$value`, neither part holding a `$`, splits into its two parts. */
  lemma SplitPair(name: string, value: string)
    requires Separator !in name && Separator !in value
    ensures PyStr.Split(name + [Separator] + value, Separator) == [name, value]
  {
    PyStr.SplitFirstPiece(name, Separator, value);
    PyStr.SplitNoSeparator(value, Separator);
  }

  /**
   * A tag key with an empty value and one whose value is literally `Others`
   * land in the same project entry, `"Others"`.
   */
  lemma EmptyTagJoinsOthers(name: string)
    requires Separator !in name
    ensures ProjectName(name + [Separator]) == Some(Others)
    ensures ProjectName(name + [Separator] + Others) == Some(Others)
  {
    SplitPair(name, "");
    assert name + [Separator] + "" == name + [Separator];
    SplitPair(name, Others);
  }

  /** A tag key `name$value` with a non-empty value is filed under `value`. */
  lemma TaggedProject(name: string, value: string)
    requires Separator !in name && Separator !in value && value != ""
    ensures ProjectName(name + [Separator] + value) == Some(value)
  {
    SplitPair(name, value);
  }

  /** The resource type of a service key `service$id` is `service`. */
  lemma ServicePrefix(service: string, id: string)
    requires Separator !in service && Separator !in id
    ensures ResourceType(service + [Separator] + id) == service
  {
    SplitPair(service, id);
  }

  /** Reading `name$value` from an empty dictionary creates the entry `value`. */
  lemma TaggedStep(name: string, value: string, service: string, x: real)
    requires Separator !in name && Separator !in value && value != ""
    ensures Step(map[], Group([name + [Separator] + value, service], x)) ==
      Some(map[value := ProjectCost(x, map[service := ResourceCost(x, ResourceType(service))])])
  {
    TaggedProject(name, value);
  }

  /** Reading `name$` into a dictionary without `"Others"` adds the entry `"Others"`. */
  lemma UntaggedStep(name: string, service: string, y: real, data: CostData)
    requires Separator !in name && Others !in data
    ensures Step(data, Group([name + [Separator], service], y)) ==
      Some(data[Others := ProjectCost(y, map[service := ResourceCost(y, ResourceType(service))])])
  {
    EmptyTagJoinsOthers(name);
  }

  /** Two groups that both read fold into their two steps in order. */
  lemma TwoGroups(g0: Group, g1: Group, once: CostData, twice: CostData)
    requires Step(map[], g0) == Some(once) && Step(once, g1) == Some(twice)
    ensures FoldGroups(map[], [g0, g1]) == Some(twice)
  {
    var groups := [g0, g1];
    assert groups[1..] == [g1] && [g1][1..] == [];
    assert FoldGroups(map[], groups) == FoldGroups(once, [g1]) == FoldGroups(twice, []);
  }

  /**
   * Two groups, one tagged with project `value` and one with an empty tag
   * value, give one entry each: `value`, and `"Others"` for the untagged one.
   */
  lemma TaggedAndUntagged(name: string, value: string, first: string, second: string, x: real, y: real)
    requires Separator !in name && Separator !in value && value != "" && value != Others
    ensures
      var groups := [
        Group([name + [Separator] + value, first], x),
        Group([name + [Separator], second], y)];
      Aggregate(Some(Response([groups]))) ==
        Some(map[
          value := ProjectCost(x, map[first := ResourceCost(x, ResourceType(first))]),
          Others := ProjectCost(y, map[second := ResourceCost(y, ResourceType(second))])])
  {
    var g0 := Group([name + [Separator] + value, first], x);
    var g1 := Group([name + [Separator], second], y);
    var alpha := ProjectCost(x, map[first := ResourceCost(x, ResourceType(first))]);
    var others := ProjectCost(y, map[second := ResourceCost(y, ResourceType(second))]);
    var once := map[value := alpha];
    var twice := once[Others := others];
    TaggedStep(name, value, first, x);
    UntaggedStep(name, second, y, once);
    TwoGroups(g0, g1, once, twice);
    assert twice == map[value := alpha, Others := others];
  }
}
