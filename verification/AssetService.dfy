/**
  The creator service's methods on assets, each uninterrupted: current assets, campaigns, and the
  calls whose sessions Assets lets interleave.
 */
module AssetService {
  import opened Assets
  import opened Wrappers

  const SPEC_KINDS := ["description", "newsletter", "social_post", "podcast_pitch", "video_script"]

  /** `[latest[kind] for kind in kinds if kind in latest]`, the latest being the first listed. */
  function CurrentOf(rows: seq<Asset>, kinds: seq<string>): seq<Asset> {
    if kinds == [] then []
    else
      var newest := FirstOfKind(rows, kinds[|kinds| - 1]);
      CurrentOf(rows, kinds[..|kinds| - 1]) + if newest.Some? then [newest.value] else []
  }

  lemma {:induction false} FirstHasKind(rows: seq<Asset>, kind: string)
    ensures FirstOfKind(rows, kind).Some? ==> FirstOfKind(rows, kind).value.kind == kind && FirstOfKind(rows, kind).value in rows
  {
    if rows != [] { FirstHasKind(rows[1..], kind); }
  }

  /** The current assets are exactly the newest ones of the kinds asked for. */
  lemma {:induction false} CurrentIsNewestOfEachKind(rows: seq<Asset>, kinds: seq<string>, a: Asset)
    ensures a in CurrentOf(rows, kinds) <==> a.kind in kinds && FirstOfKind(rows, a.kind) == Some(a)
  {
    if kinds != [] {
      var k := |kinds| - 1;
      CurrentIsNewestOfEachKind(rows, kinds[..k], a);
      assert kinds == kinds[..k] + [kinds[k]];
      FirstHasKind(rows, kinds[k]);
    }
  }

  datatype Slot = Slot(kind: string, channel: string, phase: string)

  const PHASE_PLAN := [Slot("newsletter", "email", "pre-launch"), Slot("social_post", "social", "launch_week"),
                       Slot("podcast_pitch", "podcast", "launch_week"), Slot("video_script", "video", "post-launch"),
                       Slot("description", "kdp", "pre-launch")]

  datatype Task = Task(tenant: string, asset: Option<nat>, channel: string, phase: string, approval: string)

  /** A slot is filled by the newest asset of its kind if that one is approved, and stays pending otherwise. */
  function Planned(assets: seq<Asset>, tenant: string, book: string, slot: Slot): Task {
    var k := NewestOf(assets, tenant, book, slot.kind);
    if k.Some? && k.value < |assets| && assets[k.value].approval == "approved"
    then Task(tenant, k, slot.channel, slot.phase, "approved")
    else Task(tenant, None, slot.channel, slot.phase, "pending")
  }

  /** What the planned tasks mean for the campaign: each asset is the book's own, approved, and the newest of its kind. */
  lemma {:induction false} TasksUseOwnApprovedAssets(assets: seq<Asset>, tenant: string, book: string, slot: Slot)
    ensures var t := Planned(assets, tenant, book, slot);
            t.asset.Some? ==>
              && t.asset.value < |assets| && assets[t.asset.value].tenant == tenant && assets[t.asset.value].book == book
              && assets[t.asset.value].kind == slot.kind && assets[t.asset.value].approval == "approved"
              && !assets[t.asset.value].deleted
              && forall i | t.asset.value < i < |assets| :: !IsOne(assets[i], tenant, book, slot.kind)
  {
    NewestIsNewest(assets, tenant, book, slot.kind);
  }

  /** Conversely the newest asset of the kind is carried if it is approved; nothing else ever is, and the rest is the slot's. */
  lemma {:induction false} TaskCarriesExactly(assets: seq<Asset>, tenant: string, book: string, slot: Slot, k: nat)
    ensures var t := Planned(assets, tenant, book, slot);
            && (t.asset == Some(k) <==>
                  && k < |assets| && IsOne(assets[k], tenant, book, slot.kind) && assets[k].approval == "approved"
                  && forall i | k < i < |assets| :: !IsOne(assets[i], tenant, book, slot.kind))
            && t.approval == (if t.asset.Some? then "approved" else "pending")
            && t.tenant == tenant && t.channel == slot.channel && t.phase == slot.phase
  {
    NewestIsNewest(assets, tenant, book, slot.kind);
  }

  /** Only this row may change. */
  predicate OnlyAsset(before: seq<Asset>, after: seq<Asset>, id: nat) {
    |after| == |before| && forall i | 0 <= i < |before| && i != id :: after[i] == before[i]
  }

  predicate IsDraftOf(a: Asset, tenant: string, book: string, document: string, p: Payload, parent: Option<nat>) {
    && a.tenant == tenant && a.book == book && a.document == Some(document) && a.parent == parent && a.kind == p.kind
    && a.content == p.content && a.governance == "pending" && a.approval == "draft" && !a.deleted
  }

  lemma {:induction false} PersistedKeepsInv(db: Db, d: Draft, payloads: seq<Payload>)
    requires Inv(db) && DraftAgrees(db, d) && Insertable(db, d)
    ensures Inv(db.(assets := Persisted(db.assets, d, payloads)))
  {
    var db' := db.(assets := Persisted(db.assets, d, payloads));
    PersistedExtends(db.assets, d, payloads);
    forall i | 0 <= i < |db'.assets| ensures WellFormed(db', i) {
      if i < |db.assets| { assert WellFormed(db, i); }
    }
    GrownKeepsCalls(db, db');
  }

  lemma {:induction false} UpdateKeepsInv(db: Db, id: nat, a: Asset)
    requires Inv(db) && id < |db.assets|
    requires a.(governance := "", approval := "", correction := None, evaluation := None)
          == db.assets[id].(governance := "", approval := "", correction := None, evaluation := None)
    requires if a.governance == "pending" then db.assets[id].governance == "pending" && a.evaluation.None?
             else a.governance in LABELS && a.evaluation == Some(a.governance)
    requires a.approval == "approved" ==> a.governance != "pending"
    ensures Inv(db.(assets := db.assets[id := a]))
  {
    UpdateKeepsRows(db, id, a);
    GrownKeepsCalls(db, db.(assets := db.assets[id := a]));
  }

  class CreatorService {
    var db: Db

    ghost predicate Valid()
      reads this
    {
      Inv(db)
    }

    constructor ()
      ensures Valid() && db == EMPTY
    {
      db := EMPTY;
    }

    /** The session that inserts what a generation or a revision has prepared. */
    method PersistGeneratedAssets(d: Draft, payloads: seq<Payload>) returns (r: Result<seq<Asset>>)
      requires Valid() && DraftAgrees(db, d)
      modifies this
      ensures Valid() && db == old(db).(assets := db.assets)
      ensures r.Ok? <==> Insertable(old(db), d) || payloads == []
      ensures r.Ok? ==> db.assets == Persisted(old(db).assets, d, payloads) && db.assets == old(db).assets + r.value
                        && |r.value| == |payloads|
                        && forall i | 0 <= i < |payloads| :: r.value[i] == Fresh(|old(db).assets| + i, d, payloads[i])
      ensures r.Err? ==> db == old(db)
    {
      PersistedExtends(db.assets, d, payloads);
      if payloads != [] && !(d.book in db.books && d.document in db.documents) {
        return Err("IntegrityError");
      }
      if payloads != [] { PersistedKeepsInv(db, d, payloads); }
      var before := db.assets;
      var assets := before;
      for i := 0 to |payloads|
        invariant assets == Persisted(before, d, payloads[..i])
      {
        assert payloads[..i + 1][..i] == payloads[..i];
        assets := assets + [Fresh(|assets|, d, payloads[i])];
      }
      assert payloads[..|payloads|] == payloads;
      db := db.(assets := assets);
      var created := assets[|before|..];
      assert forall i | 0 <= i < |payloads| :: created[i] == assets[|before| + i];
      r := Ok(created);
    }

    /** Uninterrupted: the lookups, then the insert. */
    method GenerateAssets(tenant: string, book: string, document: string, payloads: seq<Payload>) returns (r: Result<seq<Asset>>)
      requires Valid()
      modifies this
      ensures Valid()
      ensures r.Ok? <==> Owns(old(db), tenant, book) && OwnsDocument(old(db), tenant, document)
      ensures r.Ok? ==> db.assets == old(db).assets + r.value && |r.value| == |payloads|
                        && forall i | 0 <= i < |r.value| :: IsDraftOf(r.value[i], tenant, book, document, payloads[i], None)
      ensures !r.Ok? ==> db == old(db)
    {
      if !Owns(db, tenant, book) || !OwnsDocument(db, tenant, document) {
        return Err("KeyError");
      }
      var d := Draft(tenant, book, document, None, None);
      PersistedExtends(db.assets, d, payloads);
      r := PersistGeneratedAssets(d, payloads);
    }

    method EvaluateAsset(tenant: string, id: nat, verdict: string) returns (r: Result<Asset>)
      requires Valid() && verdict in LABELS
      modifies this
      ensures Valid() && db == Next(old(db), Evaluate(tenant, id, verdict))
      ensures r == if Found(old(db), tenant, id) then Ok(Evaluated(old(db).assets[id], verdict)) else Err("KeyError")
      ensures OnlyAsset(old(db).assets, db.assets, id)
      ensures Found(old(db), tenant, id) ==>
                db.assets[id] == old(db).assets[id].(governance := verdict, evaluation := Some(verdict))
    {
      StepKeepsInv(db, Evaluate(tenant, id, verdict));
      if !Found(db, tenant, id) {
        return Err("KeyError");
      }
      db := db.(assets := db.assets[id := Evaluated(db.assets[id], verdict)]);
      r := Ok(db.assets[id]);
    }

    /** Uninterrupted. The verdict is what an evaluation would give, asked for only while the asset is pending. */
    method ApproveAsset(tenant: string, id: nat, verdict: string) returns (r: Result<Asset>)
      requires Valid() && verdict in LABELS
      modifies this
      ensures Valid()
      ensures db == if Found(old(db), tenant, id)
                    then old(db).(assets := old(db).assets[id := Approved(old(db).assets[id], verdict)])
                    else old(db)
      ensures r == if !Found(old(db), tenant, id) then Err("KeyError")
                   else if Approved(old(db).assets[id], verdict).governance == "block"
                   then Err("Blocked assets cannot be approved until they are revised")
                   else Ok(Approved(old(db).assets[id], verdict))
      ensures r.Ok? ==> id < |db.assets| && r.value == db.assets[id] && r.value.approval == "approved"
                        && r.value.governance in {"allow", "review"} && r.value.evaluation.Some?
      ensures OnlyAsset(old(db).assets, db.assets, id)
      ensures Found(old(db), tenant, id) ==>
                var before := old(db).assets[id];
                var stands := if before.governance == "pending" then verdict else before.governance;
                && (r.Ok? <==> stands != "block")
                && db.assets[id].(evaluation := before.evaluation)
                   == before.(governance := stands, approval := if stands == "block" then before.approval else "approved")
                && db.assets[id].evaluation == (if before.governance == "pending" then Some(verdict) else before.evaluation)
    {
      ghost var before := db;
      if !Found(db, tenant, id) {
        return Err("KeyError");
      }
      assert WellFormed(before, id);
      UpdateKeepsInv(before, id, Approved(before.assets[id], verdict));
      var asset := db.assets[id];
      assert before.assets[id := asset] == before.assets;
      if asset.governance == "block" {
        return Err("Blocked assets cannot be approved until they are revised");
      }
      if asset.governance == "pending" {
        var evaluated := EvaluateAsset(tenant, id, verdict);
        asset := evaluated.value;
        if asset.governance == "block" {
          return Err("Blocked assets cannot be approved until they are revised");
        }
      }
      db := db.(assets := db.assets[id := asset.(approval := "approved")]);
      assert db.assets == before.assets[id := Approved(before.assets[id], verdict)];
      r := Ok(db.assets[id]);
    }

    method RejectAsset(tenant: string, id: nat, note: Option<string>) returns (r: Result<Asset>)
      requires Valid()
      modifies this
      ensures Valid() && db == Next(old(db), Reject(tenant, id, note))
      ensures r.Ok? <==> Found(old(db), tenant, id)
      ensures r.Ok? ==> id < |db.assets| && r.value == db.assets[id]
      ensures OnlyAsset(old(db).assets, db.assets, id)
      ensures r.Ok? ==> db.assets[id] == old(db).assets[id].(approval := "rejected", correction := note)
    {
      StepKeepsInv(db, Reject(tenant, id, note));
      if !Found(db, tenant, id) {
        return Err("KeyError");
      }
      db := db.(assets := db.assets[id := db.assets[id].(approval := "rejected", correction := note)]);
      r := Ok(db.assets[id]);
    }

    /** What a revision reads before it asks the Mind. */
    method ReadRevision(tenant: string, id: nat, correction: string) returns (r: Result<Draft>)
      requires Valid()
      ensures r.Ok? <==> Revisable(db, tenant, id)
      ensures r.Ok? ==> r.value == Revision(db.assets[id], correction) && DraftAgrees(db, r.value) && Insertable(db, r.value)
    {
      if !Found(db, tenant, id) {
        return Err("KeyError");
      }
      var asset := db.assets[id];
      assert WellFormed(db, id);
      if asset.document.None? || asset.document.value == "" {
        return Err("Asset has no source document to revise from");
      }
      if !OwnsDocument(db, tenant, asset.document.value) {
        return Err("KeyError");
      }
      r := Ok(Revision(asset, correction));
    }

    /** Uninterrupted. The first of the newly generated rows; with none generated the source raises an IndexError. */
    method ReviseAsset(tenant: string, id: nat, correction: string, payloads: seq<Payload>) returns (r: Result<Asset>)
      requires Valid()
      modifies this
      ensures Valid()
      ensures db.assets == if Revisable(old(db), tenant, id)
                           then Persisted(old(db).assets, Revision(old(db).assets[id], correction), payloads)
                           else old(db).assets
      ensures r.Ok? <==> Revisable(old(db), tenant, id) && payloads != []
      ensures r.Ok? ==> |db.assets| == |old(db).assets| + |payloads|
                        && forall i | 0 <= i < |payloads| ::
                             && IsDraftOf(db.assets[|old(db).assets| + i], tenant, old(db).assets[id].book,
                                          old(db).assets[id].document.value, payloads[i], Some(id))
                             && db.assets[|old(db).assets| + i].correction == Some(correction)
      ensures forall i | 0 <= i < |old(db).assets| :: i < |db.assets| && db.assets[i] == old(db).assets[i]
      ensures r.Ok? ==> r.value.id == |old(db).assets| && r.value.parent == Some(id) && r.value.approval == "draft"
                        && r.value.governance == "pending" && id < |old(db).assets| && r.value.book == old(db).assets[id].book
    {
      var read := ReadRevision(tenant, id, correction);
      if read.Err? {
        return Err(read.error);
      }
      assert WellFormed(db, id);
      PersistedExtends(db.assets, read.value, payloads);
      var created := PersistGeneratedAssets(read.value, payloads);
      if payloads == [] {
        return Err("IndexError");
      }
      r := Ok(created.value[0]);
    }

    /** Newest first. */
    method ListAssets(tenant: string, book: string) returns (r: Result<seq<Asset>>)
      ensures r == if Owns(db, tenant, book) then Ok(Listed(db.assets, tenant, book)) else Err("KeyError")
    {
      if !Owns(db, tenant, book) {
        return Err("KeyError");
      }
      var rows: seq<Asset> := [];
      for i := 0 to |db.assets|
        invariant rows == Listed(db.assets[..i], tenant, book)
      {
        assert db.assets[..i + 1][..i] == db.assets[..i];
        if !db.assets[i].deleted && db.assets[i].tenant == tenant && db.assets[i].book == book {
          rows := [db.assets[i]] + rows;
        }
      }
      assert db.assets[..|db.assets|] == db.assets;
      r := Ok(rows);
    }

    method LatestByKind(rows: seq<Asset>) returns (latest: map<string, Asset>)
      ensures latest == FirstWins(rows)
    {
      latest := map[];
      for i := 0 to |rows|
        invariant latest == FirstWins(rows[..i])
      {
        assert rows[..i + 1][..i] == rows[..i];
        if rows[i].kind !in latest {
          latest := latest[rows[i].kind := rows[i]];
        }
      }
      assert rows[..|rows|] == rows;
    }

    /** The newest asset of each kind there is, in the order of the asset specifications. */
    method CurrentAssets(tenant: string, book: string) returns (r: Result<seq<Asset>>)
      ensures r == if Owns(db, tenant, book) then Ok(CurrentOf(Listed(db.assets, tenant, book), SPEC_KINDS))
                   else Err("KeyError")
    {
      var listed := ListAssets(tenant, book);
      if listed.Err? {
        return Err(listed.error);
      }
      var rows := listed.value;
      var latest := LatestByKind(rows);
      var current: seq<Asset> := [];
      for i := 0 to |SPEC_KINDS|
        invariant current == CurrentOf(rows, SPEC_KINDS[..i])
      {
        assert SPEC_KINDS[..i + 1][..i] == SPEC_KINDS[..i];
        FirstWinsIsFirst(rows, SPEC_KINDS[i]);
        if SPEC_KINDS[i] in latest {
          current := current + [latest[SPEC_KINDS[i]]];
        }
      }
      assert SPEC_KINDS[..|SPEC_KINDS|] == SPEC_KINDS;
      r := Ok(current);
    }

    /** The approved ones among the current assets, by kind. */
    method ApprovedByKind(ghost rows: seq<Asset>, current: seq<Asset>) returns (byKind: map<string, Asset>)
      requires current == CurrentOf(rows, SPEC_KINDS)
      ensures forall kind | kind in SPEC_KINDS ::
                if FirstOfKind(rows, kind).Some? && FirstOfKind(rows, kind).value.approval == "approved"
                then kind in byKind && byKind[kind] == FirstOfKind(rows, kind).value
                else kind !in byKind
    {
      byKind := map[];
      forall a ensures a in current <==> a.kind in SPEC_KINDS && FirstOfKind(rows, a.kind) == Some(a) {
        CurrentIsNewestOfEachKind(rows, SPEC_KINDS, a);
      }
      for i := 0 to |current|
        invariant forall kind | kind in byKind ::
                    FirstOfKind(rows, kind) == Some(byKind[kind]) && byKind[kind].approval == "approved"
        invariant forall j | 0 <= j < i && current[j].approval == "approved" :: current[j].kind in byKind
      {
        assert current[i] in current;
        if current[i].approval == "approved" {
          byKind := byKind[current[i].kind := current[i]];
        }
      }
      forall kind | kind in SPEC_KINDS && FirstOfKind(rows, kind).Some?
        ensures FirstOfKind(rows, kind).value.approval == "approved" ==> kind in byKind
      {
        FirstHasKind(rows, kind);
        assert FirstOfKind(rows, kind).value in current;
      }
    }

    /** Every task points to its book's newest asset of the kind, and only if that one is approved. */
    method CreateCampaign(tenant: string, book: string) returns (r: Result<seq<Task>>)
      requires Valid()
      ensures r.Ok? <==> Owns(db, tenant, book)
      ensures r.Ok? ==> |r.value| == |PHASE_PLAN|
                        && forall i | 0 <= i < |PHASE_PLAN| :: r.value[i] == Planned(db.assets, tenant, book, PHASE_PLAN[i])
    {
      if !Owns(db, tenant, book) {
        return Err("KeyError");
      }
      var current := CurrentAssets(tenant, book);
      var byKind := ApprovedByKind(Listed(db.assets, tenant, book), current.value);
      var tasks: seq<Task> := [];
      for i := 0 to |PHASE_PLAN|
        invariant |tasks| == i && forall j | 0 <= j < i :: tasks[j] == Planned(db.assets, tenant, book, PHASE_PLAN[j])
      {
        var slot := PHASE_PLAN[i];
        assert slot.kind in SPEC_KINDS;
        NewestIsNewest(db.assets, tenant, book, slot.kind);
        if slot.kind in byKind {
          assert WellFormed(db, NewestOf(db.assets, tenant, book, slot.kind).value);
          tasks := tasks + [Task(tenant, Some(byKind[slot.kind].id), slot.channel, slot.phase, "approved")];
        } else {
          tasks := tasks + [Task(tenant, None, slot.channel, slot.phase, "pending")];
        }
      }
      r := Ok(tasks);
    }

    method RequiredAssetsApproved(rows: seq<Asset>) returns (ok: bool)
      ensures ok == RequiredApproved(rows)
    {
      var reversed: seq<Asset> := [];
      var latest: map<string, Asset> := map[];
      var i := |rows|;
      while i > 0
        invariant 0 <= i <= |rows| && reversed == Reversed(rows[i..]) && latest == LastWins(reversed)
      {
        i := i - 1;
        assert rows[i..][1..] == rows[i + 1..];
        assert (reversed + [rows[i]])[..|reversed|] == reversed;
        reversed := reversed + [rows[i]];
        latest := latest[rows[i].kind := rows[i]];
      }
      assert rows[0..] == rows;
      ok := "description" in latest && latest["description"].approval == "approved"
            && latest["description"].governance != "block";
    }

    /** The session in which a package reads the gate. */
    method CheckPackage(tenant: string, book: string) returns (r: Result<()>)
      requires Valid()
      ensures r.Ok? <==> Owns(db, tenant, book) && GateOpen(db, tenant, book)
    {
      var rows := ListAssets(tenant, book);
      if rows.Err? {
        return Err(rows.error);
      }
      var approved := RequiredAssetsApproved(rows.value);
      GateIsRequiredApproved(db, tenant, book);
      if !approved {
        return Err("Approve the book description before building a package");
      }
      r := Ok(());
    }

    /** Uninterrupted: a package is built only behind an open gate, and only with a valid destination. */
    method BuildPackage(tenant: string, book: string, destinationOk: bool) returns (r: Result<()>)
      requires Valid()
      ensures r.Ok? <==> Owns(db, tenant, book) && GateOpen(db, tenant, book) && destinationOk
      ensures r.Ok? ==> var k := NewestOf(db.assets, tenant, book, "description").value;
                        k < |db.assets| && db.assets[k].approval == "approved"
                        && db.assets[k].evaluation in {Some("allow"), Some("review")}
    {
      r := CheckPackage(tenant, book);
      if r.Err? {
        return;
      }
      assert WellFormed(db, NewestOf(db.assets, tenant, book, "description").value);
      if !destinationOk {
        return Err("ValueError");
      }
    }
  }
}
