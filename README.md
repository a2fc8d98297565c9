# Project spend cost aggregation

A Dafny model of `cost_of_project`, the function that turns an AWS Cost
Explorer response into the per-project spend dictionary that the project
spend Lambda exports.

The billing response is grouped by the `Project` cost-allocation tag and by
the `SERVICE` dimension. For each group of the first `ResultsByTime` entry,
the function does the following:

- It reads the tag value of the group's tag key. This is the text after the
  first `$`, up to the next one. An empty value is filed under `"Others"`.
- It creates the project's entry `{project_cost: 0.0, resources: {}}` if the
  entry is missing.
- It adds the group's `UnblendedCost` amount to the project total.
- It stores `{resource_cost, resource_type}` under the group's service key,
  replacing any earlier entry. The resource type is the service key up to its
  first `$`.

If anything in the call raises, the function returns `None` and no partial
dictionary.

The model has three modules:

- `ProjectSpendCost` (`project_spend_cost.dfy`) holds the data model.
  - The loop itself is the method `CostOfProject`, which updates a map
    variable group by group.
  - Two helper methods model the two halves of the loop body: `ReadGroup` and
    `StoreCost`.
  - Each method is proved equal to a pure specification: `Aggregate`,
    `FoldGroups`, `ParseGroup` and `AddRow`.
- `PyStr` (`py_str.dfy`) models Python's `str.split` with a single-character
  separator. It proves the usual facts about it: piece count, round trip
  with `join` and the first piece.
- `CostProperties` (`cost_properties.dfy`) proves what the result means:
  - the all-or-nothing failure behaviour;
  - the dictionary's keys and totals;
  - the last-write-wins resource entries;
  - that reordering the groups changes neither whether the call fails nor
    the project keys and totals (resource entries are last-write-wins, so
    they do depend on order);
  - when a project's total equals the sum of its resource costs.

## Model

| member | source | states |
|---|---|---|
| `ProjectSpendCost.TagValue` | src/budget_details/project_spend_cost.py:34 | `split("$")[1]` fails exactly when the tag key has no `$`; otherwise it is the text after the first `$` up to the next `$` or the end |
| `ProjectSpendCost.ProjectName` | src/budget_details/project_spend_cost.py:34-36 | the project key fails exactly when the tag key has no `$`; it is never empty; an empty tag value becomes `"Others"` and any other value is kept |
| `ProjectSpendCost.ResourceType` | src/budget_details/project_spend_cost.py:40 | `split("$")[0]` is the longest `$`-free prefix of the service key: the whole key, or the part before its first `$` |
| `ProjectSpendCost.ParseGroup` | src/budget_details/project_spend_cost.py:32-38 | reading a group fails exactly when it has fewer than two keys or its tag key has no `$`; otherwise it yields the project name, the service key `Keys[1]` and the amount |
| `ProjectSpendCost.ReadGroup` | src/budget_details/project_spend_cost.py:32-38 | the loop body's reading steps, which split the tag key and index the keys, yield exactly `ParseGroup` |
| `ProjectSpendCost.StoreCost` | src/budget_details/project_spend_cost.py:40-48 | the loop body's dictionary updates (create if missing, add to the total, overwrite the resource entry) yield exactly `AddRow` |
| `ProjectSpendCost.CostOfProject` | src/budget_details/project_spend_cost.py:17-52 | the imperative loop returns exactly `Aggregate` of the billing response: `None` if the call raised or `ResultsByTime` is empty, otherwise the fold of the first bucket's groups |
| `PyStr.Split` | src/budget_details/project_spend_cost.py:34 | `str.split` always yields at least one piece |
| `PyStr.SplitCount` | src/budget_details/project_spend_cost.py:34 | `str.split` yields one more piece than there are separators, so `[1]` exists iff the key holds a `$` |
| `PyStr.SplitPiecesFree` | src/budget_details/project_spend_cost.py:34 | no piece of a split contains the separator |
| `PyStr.JoinSplit` | src/budget_details/project_spend_cost.py:34 | joining the pieces with the separator gives back the string |
| `PyStr.SplitJoin` | src/budget_details/project_spend_cost.py:34 | splitting a join of separator-free pieces gives back the pieces |
| `PyStr.SplitNoSeparator` | src/budget_details/project_spend_cost.py:40 | a string without the separator splits into itself alone |
| `PyStr.SplitFirstPiece` | src/budget_details/project_spend_cost.py:34 | splitting `w$rest` with `w` separator-free gives `w` followed by the split of `rest` |
| `PyStr.Head` | src/budget_details/project_spend_cost.py:40 | the first piece is a separator-free prefix that ends at the string's end or at its first separator |
| `CostProperties.ParseAll` | src/budget_details/project_spend_cost.py:31-38 | reading all groups fails exactly when some group fails; otherwise it gives one row per group, in order |
| `CostProperties.FoldIsParseThenStore` | src/budget_details/project_spend_cost.py:31-52 | the group-by-group loop equals reading every group first and then storing all rows; a single bad group anywhere discards the whole result |
| `CostProperties.AllOrNothing` | src/budget_details/project_spend_cost.py:17-52 | the call returns `None` iff the billing call raised, `ResultsByTime` is empty, or some group has fewer than two keys or a `$`-free tag key; otherwise it returns the stored rows |
| `CostProperties.FirstBucketOnly` | src/budget_details/project_spend_cost.py:31 | only `ResultsByTime[0]` is read; an empty group list gives `{}`; an empty `ResultsByTime` gives `None` |
| `CostProperties.FoldRowsKeys` | src/budget_details/project_spend_cost.py:42-43 | the dictionary's keys are the starting keys plus the projects of the rows, and nothing else |
| `CostProperties.FoldRowsTotal` | src/budget_details/project_spend_cost.py:42-44 | a project's total is its starting total plus the amounts of all its rows |
| `CostProperties.FoldRowsServices` | src/budget_details/project_spend_cost.py:42-48 | a project's resource keys are its starting keys plus the service keys of its rows |
| `CostProperties.FoldRowsResource` | src/budget_details/project_spend_cost.py:45-48 | a resource entry holds the amount of the last row with that project and service key, or the starting entry when no row has that pair |
| `CostProperties.AggregateContents` | src/budget_details/project_spend_cost.py:30-48 | starting from `{}`: keys are exactly the projects; each total is the sum of the project's amounts; resource keys are exactly its service keys; each resource entry comes from the last write |
| `CostProperties.SumCostsAdd` | src/budget_details/project_spend_cost.py:45-48 | adding a new entry adds its cost to the resource-cost sum |
| `CostProperties.FoldRowsKeepsTotals` | src/budget_details/project_spend_cost.py:42-48 | if no (project, service) pair repeats or is already stored, storing rows keeps every total equal to the sum of its resource costs |
| `CostProperties.TotalIsSumOfResources` | src/budget_details/project_spend_cost.py:42-48 | with unique (project, service) pairs, every project total equals the sum of its resource costs |
| `CostProperties.OverwriteKeepsLastAmount` | src/budget_details/project_spend_cost.py:44-48 | two groups with the same project and service key add both amounts to the total but keep only the second as the resource cost, so total and resource sum differ whenever the first is non-zero |
| `CostProperties.TotalForAppend` | src/budget_details/project_spend_cost.py:44 | a project's summed amount splits over concatenated row lists |
| `CostProperties.TotalForPermutation` | src/budget_details/project_spend_cost.py:44 | a project's summed amount does not depend on the order of the rows |
| `CostProperties.TotalsIgnoreOrder` | src/budget_details/project_spend_cost.py:42-44 | reordering rows already read changes neither the set of projects nor any project total |
| `CostProperties.ParseAllExactly` | src/budget_details/project_spend_cost.py:31-38 | a row list that matches the groups one by one is exactly what reading all the groups gives |
| `CostProperties.ParseAllAppend` | src/budget_details/project_spend_cost.py:31-38 | reading two lists of groups in turn is reading their concatenation: it fails if either fails, else the rows are concatenated |
| `CostProperties.MoveToFront` | src/budget_details/project_spend_cost.py:31-38 | moving one group to the front of the list changes neither whether reading fails nor the multiset of rows read |
| `CostProperties.ParseAllPermutation` | src/budget_details/project_spend_cost.py:31-38 | reading a reordering of the groups fails exactly when reading the original does, and otherwise yields a reordering of its rows |
| `CostProperties.AggregateIgnoresOrder` | src/budget_details/project_spend_cost.py:30-52 | reordering the groups of `ResultsByTime[0]` neither changes whether the call returns `None` nor, on success, the project keys or any project total |
| `CostProperties.SplitPair` | src/budget_details/project_spend_cost.py:34 | `name$value` with both parts `$`-free splits into exactly `[name, value]` |
| `CostProperties.EmptyTagJoinsOthers` | src/budget_details/project_spend_cost.py:34-36 | an empty tag value and the literal tag value `Others` land in the same entry, `"Others"` |
| `CostProperties.TaggedProject` | src/budget_details/project_spend_cost.py:34-36 | `name$value` with a non-empty, `$`-free value is filed under `value` |
| `CostProperties.ServicePrefix` | src/budget_details/project_spend_cost.py:40 | the resource type of `service$id` is `service` |
| `CostProperties.TaggedStep` | src/budget_details/project_spend_cost.py:32-48 | a tagged group read into `{}` creates the entry `{amount, {service: {amount, type}}}` under its tag value |
| `CostProperties.UntaggedStep` | src/budget_details/project_spend_cost.py:34-48 | a group with an empty tag value, read into a dictionary without `"Others"`, adds an `"Others"` entry and changes nothing else |
| `CostProperties.TwoGroups` | src/budget_details/project_spend_cost.py:31-48 | two readable groups give the result of their two steps in order |
| `CostProperties.TaggedAndUntagged` | src/budget_details/project_spend_cost.py:30-49 | a tagged group and an untagged group give exactly two entries: the tag value and `"Others"` |

## Left out

- The boto3 Cost Explorer client and the `get_cost_and_usage` request (time period, granularity, metric and group-by arguments) are not modelled. The response is a parameter, and `None` stands for the call raising.
- The date window (`datetime.now()` minus 30 days) is not modelled. It only feeds the request.
- `lambda_handler` is not modelled: the Prometheus gauges, the push, `json.dumps` and the status-code reply. It only reads the dictionary this model builds.
- Logging on the error path is not modelled.
- Amounts are exact reals. `float()` parsing of the amount string, its failure on a malformed string, and IEEE rounding of `+=` are not modelled.
- Missing response fields are not modelled: `ResultsByTime`, a bucket's `Groups`, a group's `Keys`, `Metrics`, `UnblendedCost` and `Amount`. The types `Response` and `Group` always carry them, so the source's `KeyError` → `None` path for a missing field is not part of the model. `AllOrNothing` therefore covers only the failure causes the types can express.
- Dictionary insertion order is not modelled: the result is a `map`. The order in which projects and resources reach the JSON body and the gauges is therefore not captured.
- The tag value is `tag_key.split("$")[1]`: the text between the first and second `$`, not everything after the first `$`. The model follows the code. A tag value that itself contains `$` is cut at that `$`.
- The invariant that a project's total equals the sum of its resource costs holds only when no (project, service key) pair repeats. A repeated pair adds both amounts to the total but keeps only the last resource cost. This overwrite is how the code is written, so `TotalIsSumOfResources` carries that condition and `OverwriteKeepsLastAmount` shows the gap.
