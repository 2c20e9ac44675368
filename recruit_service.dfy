/**
 * `RecruitService.getRecruitmentByType` (src/services/recruit.service.ts):
 * the active recruitment postings, grouped by recruitment type. The
 * query result arrives ordered by the type's dictionary order; the
 * grouping walks it once, opening a group at the first posting of each
 * type and appending every posting to its type's group.
 */
module Recruit {
  import opened Wrappers
  import opened Response

  /** One row of the query: a posting joined with its type's dictionary entry. */
  datatype RecruitRow = RecruitRow(
    id: nat, recruitmentType: string, content: string, contentEn: string, status: string,
    publishUserId: string, createUserId: string, updateUserId: string,
    typeName: string, typeNameEn: string)

  /** `RecruitResponse` (the formatted times are not modelled). */
  datatype RecruitItem = RecruitItem(
    id: nat, recruitmentType: string, content: string, contentEn: string, status: string,
    publishUserId: string, createUserId: string, updateUserId: string)

  /** `RecruitmentByTypeResponse`. */
  datatype RecruitGroup = RecruitGroup(recruitmentType: string, typeName: string, typeNameEn: string,
                                       items: seq<RecruitItem>)

  const RecruitSuccessMessage := "获取招聘信息成功"

  function ItemOf(row: RecruitRow): (r: RecruitItem)
    ensures r.id == row.id && r.recruitmentType == row.recruitmentType
  {
    RecruitItem(row.id, row.recruitmentType, row.content, row.contentEn, row.status,
      row.publishUserId, row.createUserId, row.updateUserId)
  }

  /** The postings of type `t`, in query order. */
  function ItemsOfType(rows: seq<RecruitRow>, t: string): (r: seq<RecruitItem>)
    ensures |r| <= |rows|
    ensures forall k | 0 <= k < |r| :: r[k].recruitmentType == t
  {
    if rows == [] then []
    else
      var prefix := ItemsOfType(rows[..|rows| - 1], t);
      var last := rows[|rows| - 1];
      if last.recruitmentType == t then prefix + [ItemOf(last)] else prefix
  }

  /** The first row of type `t`, if any. */
  function FirstOfType(rows: seq<RecruitRow>, t: string): (r: Option<RecruitRow>)
    ensures r.Some? ==> r.value.recruitmentType == t
  {
    if rows == [] then None
    else
      var prefix := FirstOfType(rows[..|rows| - 1], t);
      var last := rows[|rows| - 1];
      if prefix.Some? then prefix else if last.recruitmentType == t then Some(last) else None
  }

  /** The types in the order their first posting appears, each once. */
  function TypesInOrder(rows: seq<RecruitRow>): (r: seq<string>)
    ensures forall t | t in r :: FirstOfType(rows, t).Some?
    ensures forall a, b | 0 <= a < b < |r| :: r[a] != r[b]
  {
    if rows == [] then []
    else
      var prefix := TypesInOrder(rows[..|rows| - 1]);
      var last := rows[|rows| - 1];
      if last.recruitmentType in prefix then prefix else prefix + [last.recruitmentType]
  }

  /**
   * A type is listed exactly when some posting has it, and then (and
   * only then) it has a first posting and a non-empty list of postings.
   */
  lemma {:induction false} TypeListed(rows: seq<RecruitRow>, t: string)
    ensures t in TypesInOrder(rows) <==> exists i | 0 <= i < |rows| :: rows[i].recruitmentType == t
    ensures t in TypesInOrder(rows) <==> FirstOfType(rows, t).Some?
    ensures t in TypesInOrder(rows) <==> ItemsOfType(rows, t) != []
  {
    if rows != [] {
      var prefix := rows[..|rows| - 1];
      var last := rows[|rows| - 1];
      TypeListed(prefix, t);
      var inPrefix := exists i | 0 <= i < |prefix| :: prefix[i].recruitmentType == t;
      var inRows := exists i | 0 <= i < |rows| :: rows[i].recruitmentType == t;
      if inPrefix {
        var i :| 0 <= i < |prefix| && prefix[i].recruitmentType == t;
        assert rows[i] == prefix[i];
      } else if inRows {
        assert forall i | 0 <= i < |prefix| :: prefix[i] == rows[i];
        assert last.recruitmentType == t;
      }
    }
  }

  /** The group of type `t`: named after its first posting's dictionary entry, or after `t` when that name is empty. */
  function GroupOf(rows: seq<RecruitRow>, t: string): RecruitGroup
    requires FirstOfType(rows, t).Some?
  {
    var first := FirstOfType(rows, t).value;
    RecruitGroup(t, OpeningName(first), first.typeNameEn, ItemsOfType(rows, t))
  }

  /** The grouping: one group per type, in order of first appearance. */
  function Grouped(rows: seq<RecruitRow>): (r: seq<RecruitGroup>)
    ensures |r| == |TypesInOrder(rows)|
    ensures forall g | 0 <= g < |r| :: r[g] == GroupOf(rows, TypesInOrder(rows)[g])
  {
    var types := TypesInOrder(rows);
    seq(|types|, g requires 0 <= g < |types| => GroupOf(rows, types[g]))
  }

  /** The number of postings in `groups`. */
  function TotalItems(groups: seq<RecruitGroup>): nat {
    if groups == [] then 0 else TotalItems(groups[..|groups| - 1]) + |groups[|groups| - 1].items|
  }

  /** The number of postings whose type is listed in `types`. */
  function CountOfTypes(rows: seq<RecruitRow>, types: seq<string>): nat {
    if types == [] then 0 else CountOfTypes(rows, types[..|types| - 1]) + |ItemsOfType(rows, types[|types| - 1])|
  }

  /** Adding a row adds one to the count of the types list that holds its type, once. */
  lemma {:induction false} CountOfTypesStep(rows: seq<RecruitRow>, row: RecruitRow, types: seq<string>)
    requires forall a, b | 0 <= a < b < |types| :: types[a] != types[b]
    ensures CountOfTypes(rows + [row], types) ==
      CountOfTypes(rows, types) + (if row.recruitmentType in types then 1 else 0)
  {
    var all := rows + [row];
    assert all[..|all| - 1] == rows;
    if types != [] {
      var prefix := types[..|types| - 1];
      CountOfTypesStep(rows, row, prefix);
      assert row.recruitmentType in types <==> row.recruitmentType in prefix || row.recruitmentType == types[|types| - 1];
      assert types[|types| - 1] !in prefix;
    }
  }

  /** Every posting lands in exactly one group: the groups hold as many postings as the query returned. */
  lemma {:induction false} EveryRowGrouped(rows: seq<RecruitRow>)
    ensures CountOfTypes(rows, TypesInOrder(rows)) == |rows|
  {
    if rows != [] {
      var prefix := rows[..|rows| - 1];
      var last := rows[|rows| - 1];
      assert rows == prefix + [last];
      EveryRowGrouped(prefix);
      var types := TypesInOrder(prefix);
      CountOfTypesStep(prefix, last, types);
      if last.recruitmentType !in types {
        var extended := types + [last.recruitmentType];
        assert extended[..|extended| - 1] == types;
        CountOfTypesStep(prefix, last, types);
        TypeListed(prefix, last.recruitmentType);
        assert ItemsOfType(rows, last.recruitmentType) == [ItemOf(last)];
      }
    }
  }

  /** The groups' postings add up to the number of query rows. */
  lemma GroupedTotal(rows: seq<RecruitRow>)
    ensures TotalItems(Grouped(rows)) == |rows|
  {
    var types := TypesInOrder(rows);
    var groups := Grouped(rows);
    EveryRowGrouped(rows);
    TotalMatchesCount(rows, types, groups);
  }

  lemma {:induction false} TotalMatchesCount(rows: seq<RecruitRow>, types: seq<string>, groups: seq<RecruitGroup>)
    requires |groups| == |types|
    requires forall g | 0 <= g < |groups| :: groups[g].items == ItemsOfType(rows, types[g])
    ensures TotalItems(groups) == CountOfTypes(rows, types)
  {
    if groups != [] {
      TotalMatchesCount(rows, types[..|types| - 1], groups[..|groups| - 1]);
    }
  }

  /** `item` is the posting built from one of `rows`. */
  predicate BuiltFromRow(rows: seq<RecruitRow>, item: RecruitItem) {
    exists i | 0 <= i < |rows| :: item == ItemOf(rows[i])
  }

  /** Every posting of type `t` is built from one of the rows. */
  lemma {:induction false} ItemsOfTypeFromRows(rows: seq<RecruitRow>, t: string)
    ensures forall k | 0 <= k < |ItemsOfType(rows, t)| :: BuiltFromRow(rows, ItemsOfType(rows, t)[k])
  {
    if rows != [] {
      var prefix := rows[..|rows| - 1];
      var last := rows[|rows| - 1];
      assert ItemsOfType(rows, t) == if last.recruitmentType == t then ItemsOfType(prefix, t) + [ItemOf(last)] else ItemsOfType(prefix, t);
      ItemsOfTypeFromRows(prefix, t);
      forall k | 0 <= k < |ItemsOfType(rows, t)|
        ensures BuiltFromRow(rows, ItemsOfType(rows, t)[k])
      {
        if k < |ItemsOfType(prefix, t)| {
          assert BuiltFromRow(prefix, ItemsOfType(prefix, t)[k]);
          var i :| 0 <= i < |prefix| && ItemsOfType(prefix, t)[k] == ItemOf(prefix[i]);
          assert rows[i] == prefix[i];
        } else {
          assert ItemsOfType(rows, t)[k] == ItemOf(rows[|rows| - 1]);
        }
      }
    }
  }

  /**
   * Each group is keyed by a distinct type, holds exactly the postings
   * of that type in query order, and takes its names from the first of
   * them.
   */
  lemma GroupsByType(rows: seq<RecruitRow>)
    ensures var groups := Grouped(rows);
      (forall a, b | 0 <= a < b < |groups| :: groups[a].recruitmentType != groups[b].recruitmentType)
      && (forall g | 0 <= g < |groups| ::
            groups[g].items == ItemsOfType(rows, groups[g].recruitmentType) && |groups[g].items| > 0
            && (forall k | 0 <= k < |groups[g].items| :: groups[g].items[k].recruitmentType == groups[g].recruitmentType)
            && (forall k | 0 <= k < |groups[g].items| :: BuiltFromRow(rows, groups[g].items[k])))
      && (forall i | 0 <= i < |rows| :: exists g | 0 <= g < |groups| :: groups[g].recruitmentType == rows[i].recruitmentType)
  {
    var groups := Grouped(rows);
    var types := TypesInOrder(rows);
    forall g | 0 <= g < |groups|
      ensures |groups[g].items| > 0
      ensures forall k | 0 <= k < |groups[g].items| :: BuiltFromRow(rows, groups[g].items[k])
    {
      var t := types[g];
      assert t in types;
      TypeListed(rows, t);
      ItemsOfTypeFromRows(rows, t);
    }
    forall i | 0 <= i < |rows|
      ensures exists g | 0 <= g < |groups| :: groups[g].recruitmentType == rows[i].recruitmentType
    {
      var t := rows[i].recruitmentType;
      TypeListed(rows, t);
      assert t in types;
      var g :| 0 <= g < |types| && types[g] == t;
      assert groups[g].recruitmentType == t;
    }
  }

  /** The name a group opened at `row` receives: `type_name || recruitment_type`. */
  function OpeningName(row: RecruitRow): string {
    if row.typeName != "" then row.typeName else row.recruitmentType
  }

  /** Appending a row: the three walks over the rows, one row further. */
  lemma WalkStep(rows: seq<RecruitRow>, row: RecruitRow, u: string)
    ensures ItemsOfType(rows + [row], u) ==
      if row.recruitmentType == u then ItemsOfType(rows, u) + [ItemOf(row)] else ItemsOfType(rows, u)
    ensures FirstOfType(rows + [row], u) ==
      if FirstOfType(rows, u).Some? then FirstOfType(rows, u)
      else if row.recruitmentType == u then Some(row) else None
    ensures TypesInOrder(rows + [row]) ==
      if row.recruitmentType in TypesInOrder(rows) then TypesInOrder(rows)
      else TypesInOrder(rows) + [row.recruitmentType]
  {
    var all := rows + [row];
    assert all[..|all| - 1] == rows;
    assert all[|all| - 1] == row;
  }

  /** One step of the walk, for the group of one type. */
  lemma GroupOfStep(rows: seq<RecruitRow>, row: RecruitRow, u: string)
    requires u in TypesInOrder(rows + [row])
    ensures u != row.recruitmentType ==> u in TypesInOrder(rows) && GroupOf(rows + [row], u) == GroupOf(rows, u)
    ensures u == row.recruitmentType && u in TypesInOrder(rows) ==>
      GroupOf(rows + [row], u) == GroupOf(rows, u).(items := GroupOf(rows, u).items + [ItemOf(row)])
    ensures u == row.recruitmentType && u !in TypesInOrder(rows) ==>
      GroupOf(rows + [row], u) == RecruitGroup(u, OpeningName(row), row.typeNameEn, [ItemOf(row)])
  {
    WalkStep(rows, row, u);
    TypeListed(rows, u);
  }

  /** The `forEach` over the query rows, filling `groupedData`; `order` records the insertion order of its keys. */
  method WalkRows(rows: seq<RecruitRow>) returns (order: seq<string>, grouped: map<string, RecruitGroup>)
    ensures order == TypesInOrder(rows)
    ensures forall u :: u in grouped <==> u in order
    ensures forall u | u in grouped :: grouped[u] == GroupOf(rows, u)
  {
    order := [];
    grouped := map[];
    var i := 0;
    while i < |rows|
      invariant 0 <= i <= |rows|
      invariant order == TypesInOrder(rows[..i])
      invariant forall u :: u in grouped <==> u in order
      invariant forall u | u in grouped :: grouped[u] == GroupOf(rows[..i], u)
    {
      var row := rows[i];
      var t := row.recruitmentType;
      ghost var done := rows[..i];
      ghost var before := grouped;
      assert rows[..i + 1] == done + [row];
      WalkStep(done, row, t);
      if t !in grouped {
        grouped := grouped[t := RecruitGroup(t, OpeningName(row), row.typeNameEn, [])];
        order := order + [t];
      }
      var group := grouped[t];
      grouped := grouped[t := group.(items := group.items + [ItemOf(row)])];
      forall u | u in grouped
        ensures grouped[u] == GroupOf(done + [row], u)
      {
        GroupOfStep(done, row, u);
        if u != t {
          assert grouped[u] == before[u];
        }
      }
      i := i + 1;
    }
    assert rows[..|rows|] == rows;
  }

  /** The grouping of `getRecruitmentByType`: the walk, then `Object.values` in key insertion order. */
  method GroupByType(rows: seq<RecruitRow>) returns (result: seq<RecruitGroup>)
    ensures result == Grouped(rows)
  {
    var order, grouped := WalkRows(rows);
    result := [];
    var g := 0;
    while g < |order|
      invariant 0 <= g <= |order|
      invariant |result| == g
      invariant forall k | 0 <= k < g :: result[k] == GroupOf(rows, order[k])
    {
      assert order[g] in order;
      result := result + [grouped[order[g]]];
      g := g + 1;
    }
  }

  /** `getRecruitmentByType`, given the query result. */
  method GetRecruitmentByType(rows: seq<RecruitRow>) returns (r: ApiResponse<seq<RecruitGroup>>)
    ensures r == Success(Grouped(rows), RecruitSuccessMessage)
  {
    var groups := GroupByType(rows);
    r := Success(groups, RecruitSuccessMessage);
  }
}
