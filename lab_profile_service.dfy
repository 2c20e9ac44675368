/**
 * `LabProfileService` (src/services/labProfile.service.ts): the
 * lab-profile texts shown on the portal and their publishing workflow.
 * A profile is unpublished ("0"), published ("1") or taken offline
 * ("2"); publishing one profile takes every other published profile of
 * the same type offline, and published profiles can be neither edited
 * nor deleted.
 */
module LabProfiles {
  import opened Wrappers
  import opened Response

  const Unpublished := "0"
  const Published := "1"
  const Offline := "2"

  /**
   * A row of `lab_profile_infos`. `content`, `contentEn`,
   * `publishTimes` and `publishUserId` are nullable; the creation and
   * update times the database maintains are not modelled.
   */
  datatype LabProfile = LabProfile(
    id: nat,
    profileType: string,
    title: string,
    content: Option<string>,
    contentEn: Option<string>,
    createUserId: string,
    updateUserId: string,
    publishStatus: string,
    publishTimes: Option<int>,
    publishUserId: Option<string>)

  /** The table, by identifier. */
  type Table = map<nat, LabProfile>

  /** `LabProfileCreateUpdateParams`; `id` is 0 when absent (identifiers start at 1). */
  datatype ProfileParams = ProfileParams(
    id: nat, profileType: string, title: string, content: Option<string>, contentEn: Option<string>)

  /** The response and the table after one operation. */
  datatype Step = Step(response: ApiResponse<LabProfile>, table: Table)

  /** At most one published profile of each type. */
  predicate OnePublishedPerType(table: Table) {
    forall a, b | a in table && b in table ::
      (table[a].publishStatus == Published && table[b].publishStatus == Published
       && table[a].profileType == table[b].profileType) ==> a == b
  }

  const ProfileMissingMessage := "实验室简介不存在"
  const PublishedNotEditableMessage := "已发布的简介不能修改，请先取消发布后再修改"
  const AlreadyPublishedMessage := "该简介已经是发布状态"
  const OnlyPublishedUnpublishMessage := "只有已发布的简介可以下线"
  const InvalidActionMessage := "无效的操作类型"

  // --------------------------------------------------- createOrUpdate

  /**
   * The edited row: the four content fields from the request (an absent
   * `content` or `contentEn` leaves the column as it was) and the editor
   * as last updater.
   */
  function Edited(p: LabProfile, params: ProfileParams, userId: string): LabProfile {
    p.(profileType := params.profileType, title := params.title,
       content := if params.content.Some? then params.content else p.content,
       contentEn := if params.contentEn.Some? then params.contentEn else p.contentEn,
       updateUserId := userId)
  }

  /** A new row: unpublished, created and last updated by `userId`. */
  function NewProfile(id: nat, params: ProfileParams, userId: string): LabProfile {
    LabProfile(id, params.profileType, params.title, params.content, params.contentEn,
      userId, userId, Unpublished, None, None)
  }

  /** `createOrUpdateLabProfile`; a new profile receives `nextId`. */
  function CreateOrUpdateSpec(table: Table, nextId: nat, params: ProfileParams, userId: string): Step {
    if params.id != 0 then
      if params.id !in table then Step(NotFound(ProfileMissingMessage), table)
      else if table[params.id].publishStatus == Published then Step(ValidationError(PublishedNotEditableMessage), table)
      else
        var p := Edited(table[params.id], params, userId);
        Step(Success(p), table[params.id := p])
    else
      var p := NewProfile(nextId, params, userId);
      Step(Success(p), table[nextId := p])
  }

  /** Editing a missing or a published profile is refused and changes nothing. */
  lemma EditGuards(table: Table, nextId: nat, params: ProfileParams, userId: string)
    requires params.id != 0
    ensures params.id !in table ==>
      CreateOrUpdateSpec(table, nextId, params, userId) == Step(NotFound(ProfileMissingMessage), table)
    ensures params.id in table && table[params.id].publishStatus == Published ==>
      CreateOrUpdateSpec(table, nextId, params, userId) == Step(ValidationError(PublishedNotEditableMessage), table)
  {
  }

  /**
   * A successful edit changes only the edited row, and in it only type,
   * title, the two contents and the last updater: its status, publisher
   * and creator stay as they were.
   */
  lemma EditChangesOnlyContent(table: Table, nextId: nat, params: ProfileParams, userId: string)
    requires params.id != 0 && params.id in table && table[params.id].publishStatus != Published
    ensures var s := CreateOrUpdateSpec(table, nextId, params, userId);
      var before := table[params.id];
      s.response.IsSuccess() && s.table.Keys == table.Keys
      && (forall k | k in table && k != params.id :: s.table[k] == table[k])
      && s.table[params.id].(profileType := before.profileType, title := before.title, content := before.content,
                             contentEn := before.contentEn, updateUserId := before.updateUserId) == before
      && s.table[params.id].updateUserId == userId && s.table[params.id].title == params.title
  {
  }

  /** A created profile is unpublished, has the new identifier, and was created and updated by the caller. */
  lemma CreateIsUnpublished(table: Table, nextId: nat, params: ProfileParams, userId: string)
    requires params.id == 0 && nextId !in table
    ensures var s := CreateOrUpdateSpec(table, nextId, params, userId);
      s.table.Keys == table.Keys + {nextId} && (forall k | k in table :: s.table[k] == table[k])
      && s.table[nextId].publishStatus == Unpublished && s.table[nextId].id == nextId
      && s.table[nextId].createUserId == userId && s.table[nextId].updateUserId == userId
      && s.response == Success(s.table[nextId])
  {
  }

  /** Creating and editing never publish anything, so they keep one published profile per type. */
  lemma CreateOrUpdateKeepsOnePublished(table: Table, nextId: nat, params: ProfileParams, userId: string)
    requires OnePublishedPerType(table)
    ensures OnePublishedPerType(CreateOrUpdateSpec(table, nextId, params, userId).table)
  {
    var t := CreateOrUpdateSpec(table, nextId, params, userId).table;
    forall a, b | a in t && b in t && t[a].publishStatus == Published && t[b].publishStatus == Published
                  && t[a].profileType == t[b].profileType
      ensures a == b
    {
      assert a in table && t[a] == table[a];
      assert b in table && t[b] == table[b];
    }
  }

  // ------------------------------------------------ publish/unpublish

  /** The bulk update: every other published profile of `profileType` goes offline, updated by `userId`. */
  function DemoteSiblings(table: Table, id: nat, profileType: string, userId: string): (r: Table)
    ensures r.Keys == table.Keys
    ensures forall k | k in r && k != id && r[k].profileType == profileType :: r[k].publishStatus != Published
    ensures forall k | k in table && (k == id || table[k].profileType != profileType || table[k].publishStatus != Published) ::
      r[k] == table[k]
    ensures forall k | k in table && k != id && table[k].profileType == profileType && table[k].publishStatus == Published ::
      r[k].publishStatus == Offline && r[k].updateUserId == userId
      && r[k].(publishStatus := Published, updateUserId := table[k].updateUserId) == table[k]
  {
    map k | k in table ::
      if k != id && table[k].profileType == profileType && table[k].publishStatus == Published
      then table[k].(publishStatus := Offline, updateUserId := userId)
      else table[k]
  }

  /** The target after a publish: published now by `userId`. */
  function Promoted(p: LabProfile, userId: string, now: int): LabProfile {
    p.(publishStatus := Published, publishTimes := Some(now), publishUserId := Some(userId), updateUserId := userId)
  }

  /** `publishOrUnpublishLabProfile`, at clock time `now`. */
  function PublishSpec(table: Table, id: nat, action: string, userId: string, now: int): Step {
    if id !in table then Step(NotFound(ProfileMissingMessage), table)
    else
      var p := table[id];
      if action == "publish" then
        if p.publishStatus == Published then Step(ValidationError(AlreadyPublishedMessage), table)
        else
          var t := DemoteSiblings(table, id, p.profileType, userId)[id := Promoted(p, userId, now)];
          Step(Success(t[id]), t)
      else if action == "unpublish" then
        if p.publishStatus != Published then Step(ValidationError(OnlyPublishedUnpublishMessage), table)
        else
          var t := table[id := p.(publishStatus := Offline, updateUserId := userId)];
          Step(Success(t[id]), t)
      else Step(ValidationError(InvalidActionMessage), table)
  }

  /**
   * After a successful publish the target is the only published profile
   * of its type; profiles of other types, and unpublished or offline
   * profiles of its type, are untouched; the siblings that were
   * published are now offline.
   */
  lemma PublishMakesSole(table: Table, id: nat, userId: string, now: int)
    requires id in table && table[id].publishStatus != Published
    ensures var t := PublishSpec(table, id, "publish", userId, now).table;
      var ty := table[id].profileType;
      t.Keys == table.Keys
      && t[id].publishStatus == Published && t[id].publishUserId == Some(userId) && t[id].updateUserId == userId
      && t[id].publishTimes == Some(now)
      && (forall k | k in t && t[k].publishStatus == Published && t[k].profileType == ty :: k == id)
      && (forall k | k in table && k != id && (table[k].profileType != ty || table[k].publishStatus != Published) ::
            t[k] == table[k])
      && (forall k | k in table && k != id && table[k].profileType == ty && table[k].publishStatus == Published ::
            t[k].publishStatus == Offline && t[k].updateUserId == userId)
  {
  }

  /** Publishing keeps one published profile per type, whatever the table held before (for the target's type). */
  lemma PublishKeepsOnePublished(table: Table, id: nat, action: string, userId: string, now: int)
    requires OnePublishedPerType(table)
    ensures OnePublishedPerType(PublishSpec(table, id, action, userId, now).table)
  {
    var t := PublishSpec(table, id, action, userId, now).table;
    if id in table && action == "publish" && table[id].publishStatus != Published {
      PublishMakesSole(table, id, userId, now);
      forall a, b | a in t && b in t && t[a].publishStatus == Published && t[b].publishStatus == Published
                    && t[a].profileType == t[b].profileType
        ensures a == b
      {
        assert a != id ==> t[a] == table[a];
        assert b != id ==> t[b] == table[b];
      }
    }
  }

  /** Unpublishing works only on a published profile and takes it offline; an unknown action changes nothing. */
  lemma UnpublishOnlyFromPublished(table: Table, id: nat, action: string, userId: string, now: int)
    requires id in table
    ensures action == "unpublish" && table[id].publishStatus != Published ==>
      PublishSpec(table, id, action, userId, now) == Step(ValidationError(OnlyPublishedUnpublishMessage), table)
    ensures action == "unpublish" && table[id].publishStatus == Published ==>
      var t := PublishSpec(table, id, action, userId, now).table;
      t == table[id := table[id].(publishStatus := Offline, updateUserId := userId)]
    ensures action != "publish" && action != "unpublish" ==>
      PublishSpec(table, id, action, userId, now) == Step(ValidationError(InvalidActionMessage), table)
  {
  }

  // ------------------------------------------------------------ delete

  /** The counters and the table while `deleteLabProfiles` walks its identifiers. */
  datatype DeleteResult = DeleteResult(table: Table, successCount: nat, failCount: nat)

  /** One identifier: a missing or published profile is a failure, any other is deleted. */
  function DeleteStep(r: DeleteResult, id: nat): DeleteResult {
    if id in r.table && r.table[id].publishStatus != Published
    then DeleteResult(r.table - {id}, r.successCount + 1, r.failCount)
    else r.(failCount := r.failCount + 1)
  }

  /** `deleteLabProfiles(ids)`: the identifiers walked in order, from zero counts. */
  function DeleteAll(table: Table, ids: seq<nat>): DeleteResult
    decreases |ids|
  {
    if ids == [] then DeleteResult(table, 0, 0)
    else DeleteStep(DeleteAll(table, ids[..|ids| - 1]), ids[|ids| - 1])
  }

  /**
   * Every identifier is counted once, as a success or a failure, and the
   * profiles removed are exactly the listed ones that existed and were
   * not published; the others are kept as they were.
   */
  lemma {:induction false} DeleteAllSpec(table: Table, ids: seq<nat>)
    ensures var r := DeleteAll(table, ids);
      r.successCount + r.failCount == |ids|
      && (forall k :: k in r.table <==> k in table && !(k in ids && table[k].publishStatus != Published))
      && (forall k | k in r.table :: r.table[k] == table[k])
  {
    if ids != [] {
      var prefix := ids[..|ids| - 1];
      var last := ids[|ids| - 1];
      DeleteAllSpec(table, prefix);
      assert ids == prefix + [last];
      assert forall k :: k in ids <==> k in prefix || k == last;
    }
  }

  /** Walking one more identifier is one more `DeleteStep`. */
  lemma DeleteAllStep(table: Table, ids: seq<nat>, i: nat)
    requires i < |ids|
    ensures DeleteAll(table, ids[..i + 1]) == DeleteStep(DeleteAll(table, ids[..i]), ids[i])
  {
    assert ids[..i + 1][..i] == ids[..i];
  }

  /** Listing an identifier a second time counts as one more failure and changes nothing more. */
  lemma RepeatedIdFails(table: Table, ids: seq<nat>, k: nat)
    requires k in ids
    ensures DeleteAll(table, ids + [k]) == DeleteAll(table, ids).(failCount := DeleteAll(table, ids).failCount + 1)
  {
    DeleteAllSpec(table, ids);
    assert (ids + [k])[..|ids|] == ids;
  }

  /** Deleting never publishes anything. */
  lemma DeleteKeepsOnePublished(table: Table, ids: seq<nat>)
    requires OnePublishedPerType(table)
    ensures OnePublishedPerType(DeleteAll(table, ids).table)
  {
    DeleteAllSpec(table, ids);
  }

  /** The `{ successCount, failCount }` record. */
  datatype DeleteCounts = DeleteCounts(successCount: nat, failCount: nat)

  // ------------------------------------------------------------ paging

  /** The paging of `getLabProfileList`. `pageNo` and `pageSize` are 0 when absent. */
  datatype Paging = Paging(pageNo: int, pageSize: int, skip: int)

  /** `pageNo || 1`, `pageSize || 20`, `(pageNo - 1) * pageSize`. */
  function PagingOf(pageNo: int, pageSize: int): (r: Paging)
    ensures pageNo != 0 ==> r.pageNo == pageNo
    ensures pageNo == 0 ==> r.pageNo == 1
    ensures pageSize != 0 ==> r.pageSize == pageSize
    ensures pageSize == 0 ==> r.pageSize == 20
    ensures r.pageSize != 0
    ensures pageNo >= 0 && pageSize >= 0 ==> r.skip >= 0 && r.skip + r.pageSize == r.pageNo * r.pageSize
  {
    var no := if pageNo == 0 then 1 else pageNo;
    var size := if pageSize == 0 then 20 else pageSize;
    Paging(no, size, (no - 1) * size)
  }

  /** `Math.ceil(a / b)` for a non-zero divisor. */
  function CeilDiv(a: int, b: int): (r: int)
    requires b != 0
    ensures b > 0 ==> (r - 1) * b < a <= r * b
    ensures b < 0 ==> r * b <= a < r * b - b
  {
    if b > 0 then -((-a) / b) else -(a / (-b))
  }

  /** `pages`. */
  function PageCount(total: nat, pageSize: int): int
    requires pageSize != 0
  {
    CeilDiv(total, pageSize)
  }

  /**
   * With a positive page size the pages exactly cover the records: the
   * last page starts before the last record and reaches it, and there
   * is no page at all when there are no records.
   */
  lemma PagesCoverRecords(total: nat, pageSize: int)
    requires pageSize > 0
    ensures total == 0 <==> PageCount(total, pageSize) == 0
    ensures total > 0 ==>
      var last := PagingOf(PageCount(total, pageSize), pageSize);
      last.skip < total <= last.skip + pageSize
  {
    var pages := PageCount(total, pageSize);
    assert pages <= 0 ==> pages * pageSize <= 0;
    assert pages >= 1 ==> pages * pageSize >= pageSize;
  }

  // ------------------------------------------------------------- class

  /** `LabProfileService` over the profile table. */
  class LabProfileService {
    var profiles: Table
    /** The identifier the next created profile receives. */
    var nextId: nat

    /** Every row is stored under its own identifier, which is below `nextId`. */
    predicate Valid()
      reads this
    {
      nextId >= 1 && forall k | k in profiles :: profiles[k].id == k && 1 <= k < nextId
    }

    constructor()
      ensures Valid() && profiles == map[] && nextId == 1
    {
      profiles := map[];
      nextId := 1;
    }

    /** `createOrUpdateLabProfile`. */
    method CreateOrUpdate(params: ProfileParams, userId: string) returns (r: ApiResponse<LabProfile>)
      requires Valid()
      modifies this
      ensures Valid()
      ensures var s := CreateOrUpdateSpec(old(profiles), old(nextId), params, userId);
        r == s.response && profiles == s.table
      ensures nextId == if params.id == 0 then old(nextId) + 1 else old(nextId)
    {
      if params.id != 0 {
        if params.id !in profiles {
          return NotFound(ProfileMissingMessage);
        }
        var existing := profiles[params.id];
        if existing.publishStatus == Published {
          return ValidationError(PublishedNotEditableMessage);
        }
        var edited := Edited(existing, params, userId);
        profiles := profiles[params.id := edited];
        return Success(edited);
      }
      var created := NewProfile(nextId, params, userId);
      profiles := profiles[nextId := created];
      nextId := nextId + 1;
      r := Success(created);
    }

    /** `publishOrUnpublishLabProfile`, at clock time `now`. */
    method PublishOrUnpublish(id: nat, action: string, userId: string, now: int) returns (r: ApiResponse<LabProfile>)
      requires Valid()
      modifies this
      ensures Valid() && nextId == old(nextId)
      ensures var s := PublishSpec(old(profiles), id, action, userId, now);
        r == s.response && profiles == s.table
    {
      if id !in profiles {
        return NotFound(ProfileMissingMessage);
      }
      var profile := profiles[id];
      if action == "publish" {
        if profile.publishStatus == Published {
          return ValidationError(AlreadyPublishedMessage);
        }
        profiles := DemoteSiblings(profiles, id, profile.profileType, userId);
        profiles := profiles[id := Promoted(profile, userId, now)];
      } else if action == "unpublish" {
        if profile.publishStatus != Published {
          return ValidationError(OnlyPublishedUnpublishMessage);
        }
        profiles := profiles[id := profile.(publishStatus := Offline, updateUserId := userId)];
      } else {
        return ValidationError(InvalidActionMessage);
      }
      r := Success(profiles[id]);
    }

    /** `deleteLabProfiles`: one identifier at a time, counting successes and failures. */
    method DeleteLabProfiles(ids: seq<nat>) returns (r: ApiResponse<DeleteCounts>)
      requires Valid()
      modifies this
      ensures Valid() && nextId == old(nextId)
      ensures var d := DeleteAll(old(profiles), ids);
        profiles == d.table && r == Success(DeleteCounts(d.successCount, d.failCount))
    {
      var successCount, failCount := 0, 0;
      var i := 0;
      while i < |ids|
        invariant 0 <= i <= |ids|
        invariant Valid() && nextId == old(nextId)
        invariant DeleteAll(old(profiles), ids[..i]) == DeleteResult(profiles, successCount, failCount)
      {
        var id := ids[i];
        DeleteAllStep(old(profiles), ids, i);
        ghost var before := DeleteResult(profiles, successCount, failCount);
        if id !in profiles {
          failCount := failCount + 1;
        } else if profiles[id].publishStatus == Published {
          failCount := failCount + 1;
        } else {
          profiles := profiles - {id};
          successCount := successCount + 1;
        }
        assert DeleteResult(profiles, successCount, failCount) == DeleteStep(before, id);
        i := i + 1;
      }
      assert ids[..|ids|] == ids;
      r := Success(DeleteCounts(successCount, failCount));
    }
  }
}
