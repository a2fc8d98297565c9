/**
 * The aggregation step of the project spend job: the billing response's
 * groups, each a (Project tag key, SERVICE key) pair with an unblended cost,
 * are folded into a dictionary from project name to its running cost total
 * and a table of per-service resource costs.
 *
 * The billing API call itself is a parameter: `None` stands for the call
 * raising, `Some(response)` for what it returned. Amounts are exact reals.
 */
module ProjectSpendCost {
  import opened Wrappers
  import PyStr

  /** The separator Cost Explorer puts between a group key's name and its value. */
  const Separator: char := '$'

  /** The project a group with an empty tag value is filed under. */
  const Others: string := "Others"

  /** One entry of `Groups`: its `Keys` and its `UnblendedCost` amount. */
  datatype Group = Group(keys: seq<string>, amount: real)

  /** The billing response: the `Groups` of each entry of `ResultsByTime`. */
  datatype Response = Response(resultsByTime: seq<seq<Group>>)

  /** The `{resource_cost, resource_type}` record stored per service key. */
  datatype ResourceCost = ResourceCost(resourceCost: real, resourceType: string)

  /** The `{project_cost, resources}` record stored per project. */
  datatype ProjectCost = ProjectCost(projectCost: real, resources: map<string, ResourceCost>)

  /** The result dictionary, keyed by project name. */
  type CostData = map<string, ProjectCost>

  /** A group whose keys have been read: normalised project, service key, amount. */
  datatype Row = Row(project: string, service: string, amount: real)

  /**
   * `tag_key.split("$")[1]`: the text between the first `$` and the next
   * one (or the end); there is none when the key holds no `$`.
   */
  function TagValue(tagKey: string): (v: Option<string>)
    ensures v.None? <==> Separator !in tagKey
    ensures Separator in tagKey ==>
      && |PyStr.Head(tagKey, Separator)| < |tagKey|
      && v == Some(PyStr.Head(tagKey[|PyStr.Head(tagKey, Separator)| + 1..], Separator))
  {
    var parts := PyStr.Split(tagKey, Separator);
    PyStr.SplitCount(tagKey, Separator);
    PyStr.SplitPiecesFree(tagKey, Separator);
    PyStr.JoinSplit(tagKey, Separator);
    assert Separator in tagKey <==> Separator in multiset(tagKey);
    if |parts| < 2 then
      None
    else
      var after := PyStr.Join(parts[1..], Separator);
      assert tagKey == parts[0] + [Separator] + after;
      assert tagKey[|parts[0]| + 1..] == after;
      PyStr.SplitJoin(parts[1..], Separator);
      Some(parts[1])
  }

  /** The project key of a tag key: its tag value, with `""` replaced by `"Others"`. */
  function ProjectName(tagKey: string): (name: Option<string>)
    ensures name.None? <==> Separator !in tagKey
    ensures name.Some? ==> name.value != ""
    ensures TagValue(tagKey) == Some("") ==> name == Some(Others)
    ensures TagValue(tagKey).Some? && TagValue(tagKey).value != "" ==> name == TagValue(tagKey)
  {
    match TagValue(tagKey)
    case None => None
    case Some(v) => if v == "" then Some(Others) else Some(v)
  }

  /**
   * `resource_name.split("$")[0]`: the service key up to its first `$`, or
   * the whole key. Defined on every key, so extracting it never fails.
   */
  function ResourceType(serviceKey: string): (t: string)
    ensures t <= serviceKey
    ensures Separator !in t
    ensures t == serviceKey || serviceKey[|t|] == Separator
  {
    PyStr.Head(serviceKey, Separator)
  }

  /**
   * Reads one group as the loop body does; `None` where the body raises: a
   * group with fewer than two keys, or a tag key with no `$`.
   */
  function ParseGroup(g: Group): (r: Option<Row>)
    ensures r.None? <==> |g.keys| < 2 || Separator !in g.keys[0]
    ensures r.Some? ==> r.value.service == g.keys[1] && r.value.amount == g.amount
    ensures r.Some? ==> Some(r.value.project) == ProjectName(g.keys[0])
  {
    if |g.keys| < 2 then None
    else
      match ProjectName(g.keys[0])
      case None => None
      case Some(p) => Some(Row(p, g.keys[1], g.amount))
  }

  /**
   * One row's effect on the dictionary: create the project entry if it is
   * missing, add the amount to its total, and overwrite the service key's
   * resource entry.
   */
  function AddRow(data: CostData, row: Row): CostData
  {
    var entry := if row.project in data then data[row.project] else ProjectCost(0.0, map[]);
    data[row.project := ProjectCost(
      entry.projectCost + row.amount,
      entry.resources[row.service := ResourceCost(row.amount, ResourceType(row.service))])]
  }

  /** One iteration of the loop: `None` when reading the group raises. */
  function Step(data: CostData, g: Group): Option<CostData>
  {
    match ParseGroup(g)
    case None => None
    case Some(row) => Some(AddRow(data, row))
  }

  /**
   * The loop over `Groups` from dictionary `data` on: each group in turn is
   * stored, and the first one that cannot be read discards everything.
   */
  function FoldGroups(data: CostData, groups: seq<Group>): Option<CostData>
    decreases |groups|
  {
    if |groups| == 0 then Some(data)
    else
      match Step(data, groups[0])
      case None => None
      case Some(data') => FoldGroups(data', groups[1..])
  }

  /**
   * What `cost_of_project` returns for what the billing call produced: `None`
   * when the call raised or `ResultsByTime` is empty; otherwise the fold of
   * the first time bucket's groups, starting from an empty dictionary.
   */
  function Aggregate(response: Option<Response>): Option<CostData>
  {
    if response.None? || |response.value.resultsByTime| == 0 then None
    else FoldGroups(map[], response.value.resultsByTime[0])
  }

  /**
   * The reading half of the loop body: read the tag key, take its tag value
   * (`None` where indexing raises), replace an empty one by `"Others"`,
   * and read the service key.
   */
  method ReadGroup(group: Group) returns (row: Option<Row>)
    ensures row == ParseGroup(group)
  {
    if |group.keys| < 1 {
      return None;
    }
    var tagKey := group.keys[0];
    var pieces := PyStr.Split(tagKey, Separator);
    if |pieces| < 2 {
      return None;
    }
    var project := pieces[1];
    if project == "" {
      project := Others;
    }
    if |group.keys| < 2 {
      return None;
    }
    var resourceName := group.keys[1];
    return Some(Row(project, resourceName, group.amount));
  }

  /**
   * The storing half of the loop body: create the project entry when it is missing,
   * add the amount to its total, and store the resource entry under the
   * service key, replacing any earlier one.
   */
  method StoreCost(data: CostData, project: string, resourceName: string, cost: real)
    returns (data': CostData)
    ensures data' == AddRow(data, Row(project, resourceName, cost))
  {
    var resourceType := ResourceType(resourceName);
    data' := data;
    if project !in data' {
      data' := data'[project := ProjectCost(0.0, map[])];
    }
    var entry := data'[project];
    entry := entry.(projectCost := entry.projectCost + cost);
    entry := entry.(resources := entry.resources[resourceName := ResourceCost(cost, resourceType)]);
    data' := data'[project := entry];
  }

  /**
   * `cost_of_project`: builds the dictionary group by group in a map
   * variable, returning `None` at the first group whose keys cannot be read.
   */
  method CostOfProject(response: Option<Response>) returns (projectCostData: Option<CostData>)
    ensures projectCostData == Aggregate(response)
  {
    if response.None? {
      return None;
    }
    var resultsByTime := response.value.resultsByTime;
    if |resultsByTime| == 0 {
      return None;
    }
    var groups := resultsByTime[0];
    var data: CostData := map[];
    var i := 0;
    while i < |groups|
      invariant 0 <= i <= |groups|
      invariant FoldGroups(data, groups[i..]) == FoldGroups(map[], groups)
    {
      var group := groups[i];
      assert groups[i..][0] == group && groups[i..][1..] == groups[i + 1..];
      var row := ReadGroup(group);
      if row.None? {
        return None;
      }
      data := StoreCost(data, row.value.project, row.value.service, row.value.amount);
      i := i + 1;
    }
    return Some(data);
  }
}
