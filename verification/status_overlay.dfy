/** The event-sourced lookup shared by lib/decisions/decisionStore.ts and
    lib/registry/agentRegistry.ts: the current record is the entity of the latest creation event
    with that id, with its `status` replaced by the latest status-change event's status when that
    status is truthy. */
module StatusOverlay {
  import opened Base
  import opened Json
  import Text
  import Redaction
  import opened Ledger

  /** Where a store keeps its events: the creation event type and the entity's key in its
      payload, the id field, and the status-change event type. */
  datatype Schema = Schema(createdKind: string, entity: string, idField: string, statusKind: string)

  /** The two event types differ, and the keys used are plain names that redaction keeps. */
  predicate WellFormed(s: Schema) {
    && s.createdKind != s.statusKind
    && '.' !in s.entity && '.' !in s.idField
    && Redaction.PlainName(s.entity) && Redaction.PlainName(s.idField)
  }

  /** Redaction keeps the entity and the id field of a well-formed schema. */
  lemma WellFormedKeys(s: Schema)
    requires WellFormed(s)
    ensures !Redaction.ShouldRedactKey(s.entity) && !Redaction.ShouldRedactKey(s.idField)
  {
    Redaction.PlainNameKept(s.entity);
    Redaction.PlainNameKept(s.idField);
  }

  /** The dotted key of the creation lookup, `<entity>.<idField>`. */
  function CreatedKey(s: Schema): string {
    s.entity + "." + s.idField
  }

  /** `getDecision` / `getAgent`: the creation lookup, then the status lookup. */
  function Current(f: LedgerFile, s: Schema, id: string): (r: Result<Option<Record>>)
    ensures GetLatestStateByType(f, s.createdKind, CreatedKey(s), id) == Ok(None) ==> r == Ok(None)
    ensures GetLatestStateByType(f, s.createdKind, CreatedKey(s), id).Err? ==> r.Err?
  {
    Overlay(GetLatestStateByType(f, s.createdKind, CreatedKey(s), id),
            GetLatestStateByType(f, s.statusKind, s.idField, id), s.entity)
  }

  /** The record from the two lookups' outcomes (both are reads of the same file, so reading the
      second only when the first finds a payload gives the same result). A creation payload whose
      entity is not an object (only a hand-edited ledger has one) is read as no record, and as a
      `TypeError` when a status would be written into it. */
  function Overlay(created: Result<Option<Json>>, statusEvt: Result<Option<Json>>, entity: string): (r: Result<Option<Record>>)
    ensures created == Ok(None) ==> r == Ok(None)
    ensures created.Err? ==> r == Err(created.error)
    ensures created.Ok? && Truthy(created.value) && statusEvt.Err? ==> r == Err(statusEvt.error)
    ensures r.Ok? && r.value.Some? ==> (created.Ok? && created.value.Some? &&
      Field(created.value, entity).Some? && Field(created.value, entity).value.JObj? && statusEvt.Ok?)
    ensures r.Ok? && r.value.Some? ==> var rec := Field(created.value, entity).value.fields;
      var status := Field(statusEvt.value, "status");
      r.value.value == if Truthy(status) then rec["status" := status.value] else rec
  {
    match created
    case Err(e) => Err(e)
    case Ok(None) => Ok(None)
    case Ok(Some(p)) =>
      if !Truthy(Some(p)) then Ok(None)
      else
        var rec := Field(Some(p), entity);
        match statusEvt
        case Err(e) => Err(e)
        case Ok(st) =>
          var status := Field(st, "status");
          if rec.Some? && rec.value.JObj? then
            Ok(Some(if Truthy(status) then rec.value.fields["status" := status.value] else rec.value.fields))
          else if Truthy(status) then Err("TypeError: Cannot set properties of undefined (setting 'status')")
          else Ok(None)
  }

  lemma CreatedKeyParts(s: Schema)
    requires '.' !in s.entity && '.' !in s.idField
    ensures Text.Split(CreatedKey(s), '.') == [s.entity, s.idField]
    ensures Text.Split(s.idField, '.') == [s.idField]
  {
    assert CreatedKey(s) == s.entity + ['.'] + s.idField;
    Text.SplitPair(s.entity, '.', s.idField);
  }

  /** The redacted creation payload `{ <entity>: rec }`. */
  function CreatedPayload(env: Env, s: Schema, rec: Record): Json {
    Redaction.RedactForAudit(env.redactString, JObj(map[s.entity := JObj(rec)]))
  }

  /** The redacted creation payload holds the redacted record under the entity key, and the id
      under `<entity>.<idField>`. */
  lemma CreatedPayloadParts(env: Env, s: Schema, rec: Record, id: string)
    requires WellFormed(s)
    requires s.idField in rec && rec[s.idField] == JStr(id) && env.redactString(id) == id
    ensures Field(Some(CreatedPayload(env, s, rec)), s.entity) == Some(Redaction.DeepRedact(env.redactString, JObj(rec)))
    ensures Path(Some(CreatedPayload(env, s, rec)), Text.Split(CreatedKey(s), '.')) == Some(JStr(id))
  {
    var payload := CreatedPayload(env, s, rec);
    var redRec := Redaction.DeepRedact(env.redactString, JObj(rec));
    WellFormedKeys(s);
    CreatedKeyParts(s);
    Redaction.DeepRedactParts(env.redactString, JObj(map[s.entity := JObj(rec)]));
    Redaction.DeepRedactParts(env.redactString, JObj(rec));
    assert payload.fields[s.entity] == redRec;
    assert redRec.fields[s.idField] == JStr(id);
    assert Field(Some(payload), s.entity) == Some(redRec);
    assert Field(Some(redRec), s.idField) == Some(JStr(id));
    assert [s.entity, s.idField][1..] == [s.idField];
    assert [s.idField][1..] == [];
    assert Path(Some(payload), [s.entity, s.idField]) == Path(Field(Some(payload), s.entity), [s.idField]);
    assert Path(Some(redRec), [s.idField]) == Path(Field(Some(redRec), s.idField), []);
  }

  /** Both lookups right after the creation event of a fresh id. */
  lemma ScansAfterCreate(env: Env, f: LedgerFile, s: Schema, rec: Record, id: string, ts: int)
    requires WellFormed(s)
    requires s.idField in rec && rec[s.idField] == JStr(id) && env.redactString(id) == id
    requires ScanBack(LinesOf(f), s.statusKind, [s.idField], id) == Ok(None)
    ensures var g := Append(env, f, ts, s.createdKind, JObj(map[s.entity := JObj(rec)]));
      && GetLatestStateByType(g, s.createdKind, CreatedKey(s), id) == Ok(Some(CreatedPayload(env, s, rec)))
      && GetLatestStateByType(g, s.statusKind, s.idField, id) == Ok(None)
  {
    var raw := JObj(map[s.entity := JObj(rec)]);
    CreatedKeyParts(s);
    CreatedPayloadParts(env, s, rec, id);
    LatestAfterMatchingAppend(env, f, ts, s.createdKind, raw, CreatedKey(s), id);
    assert !MatchesState(NewEvent(env, f, ts, s.createdKind, raw), s.statusKind, [s.idField], id);
    LatestAfterOtherAppend(env, f, ts, s.createdKind, raw, s.statusKind, s.idField, id);
  }

  /** Right after the creation event of a fresh id, the lookup returns the redacted record as
      created, provided redaction leaves the id alone. */
  lemma CurrentAfterCreate(env: Env, f: LedgerFile, s: Schema, rec: Record, id: string, ts: int)
    requires WellFormed(s)
    requires s.idField in rec && rec[s.idField] == JStr(id) && env.redactString(id) == id
    requires ScanBack(LinesOf(f), s.statusKind, [s.idField], id) == Ok(None)
    ensures Current(Append(env, f, ts, s.createdKind, JObj(map[s.entity := JObj(rec)])), s, id)
      == Ok(Some(Redaction.DeepRedact(env.redactString, JObj(rec)).fields))
  {
    ScansAfterCreate(env, f, s, rec, id, ts);
    CreatedPayloadParts(env, s, rec, id);
    var payload := CreatedPayload(env, s, rec);
    assert Truthy(Some(payload));
  }

  /** The status scan after a status-change event for `id` finds that event's payload. */
  lemma StatusScanAfterStatus(env: Env, f: LedgerFile, s: Schema, id: string, status: string, raw: Json, ts: int)
    requires WellFormed(s)
    requires raw.JObj? && s.idField in raw.fields && raw.fields[s.idField] == JStr(id) && env.redactString(id) == id
    requires "status" in raw.fields && raw.fields["status"] == JStr(status) && env.redactString(status) == status
    ensures var e := NewEvent(env, f, ts, s.statusKind, raw);
      && GetLatestStateByType(Append(env, f, ts, s.statusKind, raw), s.statusKind, s.idField, id) == Ok(Some(e.payload))
      && Field(Some(e.payload), "status") == Some(JStr(status))
  {
    var e := NewEvent(env, f, ts, s.statusKind, raw);
    StatusPayloadParts(env, s, id, status, raw);
    CreatedKeyParts(s);
    LatestAfterMatchingAppend(env, f, ts, s.statusKind, raw, s.idField, id);
  }

  /** The redacted status-change payload keeps the id and the status. */
  lemma StatusPayloadParts(env: Env, s: Schema, id: string, status: string, raw: Json)
    requires WellFormed(s)
    requires raw.JObj? && s.idField in raw.fields && raw.fields[s.idField] == JStr(id) && env.redactString(id) == id
    requires "status" in raw.fields && raw.fields["status"] == JStr(status) && env.redactString(status) == status
    ensures var p := Redaction.RedactForAudit(env.redactString, raw);
      && Path(Some(p), [s.idField]) == Some(JStr(id))
      && Field(Some(p), "status") == Some(JStr(status))
  {
    var p := Redaction.RedactForAudit(env.redactString, raw);
    WellFormedKeys(s);
    Redaction.StatusKept();
    Redaction.DeepRedactParts(env.redactString, raw);
    assert p.fields[s.idField] == JStr(id);
    assert p.fields["status"] == JStr(status);
    assert [s.idField][1..] == [];
    assert Path(Some(p), [s.idField]) == Path(Field(Some(p), s.idField), []);
  }

  /** The creation scan after a status-change event is the creation scan before it (an absent
      file reads as no record either way). */
  lemma CreatedScanAfterStatus(env: Env, f: LedgerFile, s: Schema, id: string, raw: Json, ts: int)
    requires WellFormed(s)
    requires f != Lines([])
    ensures GetLatestStateByType(Append(env, f, ts, s.statusKind, raw), s.createdKind, CreatedKey(s), id)
      == GetLatestStateByType(f, s.createdKind, CreatedKey(s), id)
  {
    CreatedKeyParts(s);
    LatestAfterOtherAppend(env, f, ts, s.statusKind, raw, s.createdKind, CreatedKey(s), id);
  }

  /** A status-change event for `id` whose status redaction keeps becomes the status of the
      current record, whatever the status was before; an id that was never created stays
      unknown. */
  lemma CurrentAfterStatus(env: Env, f: LedgerFile, s: Schema, id: string, status: string, raw: Json, ts: int)
    requires WellFormed(s)
    requires raw.JObj? && s.idField in raw.fields && raw.fields[s.idField] == JStr(id) && env.redactString(id) == id
    requires "status" in raw.fields && raw.fields["status"] == JStr(status) && env.redactString(status) == status
    requires status != ""
    requires f != Lines([])
    requires Current(f, s, id).Ok?
    ensures Current(f, s, id).value.Some? ==>
      Current(Append(env, f, ts, s.statusKind, raw), s, id) == Ok(Some(Current(f, s, id).value.value["status" := JStr(status)]))
    ensures GetLatestStateByType(f, s.createdKind, CreatedKey(s), id) == Ok(None) ==>
      Current(Append(env, f, ts, s.statusKind, raw), s, id) == Ok(None)
  {
    var g := Append(env, f, ts, s.statusKind, raw);
    var e := NewEvent(env, f, ts, s.statusKind, raw);
    StatusScanAfterStatus(env, f, s, id, status, raw, ts);
    CreatedScanAfterStatus(env, f, s, id, raw, ts);
    var created := GetLatestStateByType(f, s.createdKind, CreatedKey(s), id);
    var stOld := GetLatestStateByType(f, s.statusKind, s.idField, id);
    OverlayNewStatus(created, stOld, e.payload, s.entity, status);
  }

  /** Replacing the status lookup's outcome by a payload with a truthy status sets that status. */
  lemma OverlayNewStatus(created: Result<Option<Json>>, stOld: Result<Option<Json>>, stNew: Json, entity: string, status: string)
    requires Overlay(created, stOld, entity).Ok?
    requires Field(Some(stNew), "status") == Some(JStr(status)) && status != ""
    ensures Overlay(created, stOld, entity).value.Some? ==>
      Overlay(created, Ok(Some(stNew)), entity) == Ok(Some(Overlay(created, stOld, entity).value.value["status" := JStr(status)]))
    ensures created == Ok(None) ==> Overlay(created, Ok(Some(stNew)), entity) == Ok(None)
  {
    var before := Overlay(created, stOld, entity);
    if before.value.Some? {
      var rec := Field(created.value, entity).value.fields;
      var st := Field(stOld.value, "status");
      assert before.value.value == if Truthy(st) then rec["status" := st.value] else rec;
      assert Truthy(Some(JStr(status)));
      assert Overlay(created, Ok(Some(stNew)), entity) == Ok(Some(rec["status" := JStr(status)]));
      assert before.value.value["status" := JStr(status)] == rec["status" := JStr(status)];
    }
  }
}
