/** The `groupId` task: resolving the configured group name against the
    decoded `groups.list` listing. */
module Groups {
  import opened Js

  /** One entry of the listing; either field may be absent from the JSON. */
  datatype Group = Group(name: Value, id: Value)

  /** Entry `i` has the wanted name (strict equality) and no later entry has it. */
  ghost predicate IsLastMatch(gs: seq<Group>, group: Value, i: int) {
    && 0 <= i < |gs|
    && gs[i].name == group
    && forall j :: i < j < |gs| ==> gs[j].name != group
  }

  ghost predicate NoMatch(gs: seq<Group>, group: Value) {
    forall i :: 0 <= i < |gs| ==> gs[i].name != group
  }

  /** The `forEach` scan: `id` starts as given and every entry whose name
      equals the group overwrites it with that entry's id, whatever the id is. */
  function Scan(gs: seq<Group>, group: Value, id: Value): Value
    decreases |gs|
  {
    if |gs| == 0 then id
    else Scan(gs[1..], group, if gs[0].name == group then gs[0].id else id)
  }

  /** Independent description of the last matching entry, searched from the end. */
  function LastMatch(gs: seq<Group>, group: Value): (i: int)
    ensures -1 <= i < |gs|
    ensures 0 <= i ==> IsLastMatch(gs, group, i)
    ensures i < 0 ==> NoMatch(gs, group)
  {
    if |gs| == 0 then -1
    else if gs[|gs| - 1].name == group then |gs| - 1
    else LastMatch(gs[..|gs| - 1], group)
  }

  /** The scan keeps its starting value when nothing matches, and otherwise
      ends with the id of the LAST matching entry. */
  lemma {:induction false} ScanFindsLastMatch(gs: seq<Group>, group: Value, id: Value)
    ensures NoMatch(gs, group) ==> Scan(gs, group, id) == id
    ensures forall i :: IsLastMatch(gs, group, i) ==> Scan(gs, group, id) == gs[i].id
    decreases |gs|
  {
    if |gs| > 0 {
      var tail := gs[1..];
      var next := if gs[0].name == group then gs[0].id else id;
      ScanFindsLastMatch(tail, group, next);
      forall i | IsLastMatch(gs, group, i)
        ensures Scan(gs, group, id) == gs[i].id
      {
        if i == 0 {
          assert NoMatch(tail, group) by {
            forall k | 0 <= k < |tail| ensures tail[k].name != group {
              assert tail[k] == gs[k + 1];
            }
          }
        } else {
          assert IsLastMatch(tail, group, i - 1) by {
            forall k | i - 1 < k < |tail| ensures tail[k].name != group {
              assert tail[k] == gs[k + 1];
            }
          }
        }
      }
      if NoMatch(gs, group) {
        assert NoMatch(tail, group) by {
          forall k | 0 <= k < |tail| ensures tail[k].name != group {
            assert tail[k] == gs[k + 1];
          }
        }
      }
    }
  }

  /** The resolved id, or the error `group + ' not found'`. Resolution succeeds
      exactly when the last entry carrying the group's name (compared exactly,
      case included) has a non-empty id, and then yields that id; an earlier
      match never rescues a later one whose id is empty or absent. */
  function GroupId(gs: seq<Group>, group: Value): (r: Result<string>)
    ensures r.Ok? <==> exists i :: IsLastMatch(gs, group, i) && Truthy(gs[i].id)
    ensures forall i :: IsLastMatch(gs, group, i) && Truthy(gs[i].id) ==> r == Ok(gs[i].id.s)
    ensures NoMatch(gs, group) ==> r == Err(Text(group) + " not found")
    ensures r.Err? ==> r.error == Text(group) + " not found"
  {
    ScanFindsLastMatch(gs, group, Undefined);
    assert var k := LastMatch(gs, group); k < 0 || IsLastMatch(gs, group, k);
    var id := Scan(gs, group, Undefined);
    if !Truthy(id) then Err(Text(group) + " not found") else Ok(id.s)
  }
}
