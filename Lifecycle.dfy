/**
 * Study lifecycle operations and the locally inferred "expired" condition, which the
 * provider has no status for: a completed study whose internal name carries a marker.
 */
module Lifecycle {
  import opened Wrappers
  import opened Records
  import opened Lookup
  import opened Provider

  /** The marker token of `StudyStatus._EXPIRED`. */
  const ExpiredMarker := "EXPIRED"

  predicate EndsWith(s: string, suffix: string)
  {
    |suffix| <= |s| && s[|s| - |suffix|..] == suffix
  }

  /** The internal name `expire_study` gives a study: its old name, `_` and the marker. */
  function MarkedExpired(name: string): string
  {
    name + "_" + ExpiredMarker
  }

  /** `is_study_expired`: completed, and the internal name ends with `_` and the marker. */
  predicate IsStudyExpired(study: Study)
  {
    study.status == Completed && EndsWith(study.internalName, "_" + ExpiredMarker)
  }

  /** Expired means exactly: completed, and named as `expire_study` renames a study. */
  lemma ExpiredIffMarked(study: Study)
    ensures IsStudyExpired(study) <==>
      study.status == Completed && exists base :: study.internalName == MarkedExpired(base)
  {
    var n := study.internalName;
    var suffix := "_" + ExpiredMarker;
    if IsStudyExpired(study) {
      var base := n[..|n| - |suffix|];
      assert n == base + suffix;
      assert n == MarkedExpired(base);
    }
    if exists base :: n == MarkedExpired(base) {
      var base :| n == MarkedExpired(base);
      assert n == base + suffix;
      assert n[|n| - |suffix|..] == suffix;
    }
  }

  /** The four cases the tests pin down for a study named "test". */
  lemma IsStudyExpiredCases(study: Study)
    requires study.internalName == "test"
    ensures !IsStudyExpired(study.(status := Completed))
    ensures !IsStudyExpired(study.(status := Active))
    ensures !IsStudyExpired(study.(status := AwaitingReview))
    ensures IsStudyExpired(study.(status := Completed, internalName := "test" + "_" + ExpiredMarker))
  {
    assert EndsWith(MarkedExpired("test"), "_" + ExpiredMarker);
  }

  /** `get_study`: the provider's record under `id`. */
  method GetStudy(client: Client, id: string) returns (r: Result<Study>)
    modifies client`log
    ensures client.log == old(client.log) + [StudiesRetrieve]
    ensures r == RetrieveResponse(client.faults, StudiesRetrieve, client.studies, HasStudyId(id))
  {
    r := client.RetrieveStudy(id);
  }

  /** `publish_study`: the id of the published study, not the study. */
  method PublishStudy(client: Client, id: string) returns (r: Result<string>)
    modifies client`log, client`studies
    ensures client.log == old(client.log) + [StudiesPublish]
    ensures var published := ChangedStudy(client.faults, StudiesPublish, old(client.studies), id, PublishChange);
      && r == (if published.Ok? then Ok(id) else Err(published.message))
      && client.studies == if published.Ok? then SetStudy(old(client.studies), published.value) else old(client.studies)
    ensures r.Ok? ==> StoredStudy(client.studies, id).Some? && StoredStudy(client.studies, id).value.status == Active
  {
    var published := client.PublishStudy(id);
    match published
    case Ok(study) =>
      SetStudyStored(old(client.studies), study);
      r := Ok(study.id);
    case Err(m) => r := Err(m);
  }

  /** `stop_study`: the stopped study, under review or completed as the provider decides. */
  method StopStudy(client: Client, id: string) returns (r: Result<Study>)
    requires client.Valid()
    modifies client`log, client`studies
    ensures client.log == old(client.log) + [StudiesStop]
    ensures r == ChangedStudy(client.faults, StudiesStop, old(client.studies), id, StopChange(client.stopOutcome))
    ensures client.studies == if r.Ok? then SetStudy(old(client.studies), r.value) else old(client.studies)
    ensures r.Ok? ==> StoredStudy(client.studies, id) == Some(r.value)
    ensures r.Ok? ==> r.value.status == AwaitingReview || r.value.status == Completed
  {
    r := client.StopStudy(id);
    if r.Ok? {
      SetStudyStored(old(client.studies), r.value);
    }
  }

  /** What a sequence of provider calls answers, the studies it leaves and the calls it issued. */
  datatype Outcome = Outcome(result: Result<Study>, studies: seq<Study>, calls: seq<Call>)

  /**
   * `expire_study` on the provider's state: re-fetch, stop, then rename with the expiry
   * marker, answering the stopped study; a failed step aborts the steps after it.
   */
  function Expiry(faults: map<Call, string>, stopOutcome: StudyStatus, studies: seq<Study>, id: string): Outcome
  {
    match RetrieveResponse(faults, StudiesRetrieve, studies, HasStudyId(id))
    case Err(m) => Outcome(Err(m), studies, [StudiesRetrieve])
    case Ok(fetched) =>
      if StudiesStop in faults then Outcome(Err(faults[StudiesStop]), studies, [StudiesRetrieve, StudiesStop])
      else
        var stopped := fetched.(status := stopOutcome);
        var calls := [StudiesRetrieve, StudiesStop, StudiesUpdate];
        if StudiesUpdate in faults then Outcome(Err(faults[StudiesUpdate]), SetStudy(studies, stopped), calls)
        else Outcome(Ok(stopped), SetStudy(studies, stopped.(internalName := MarkedExpired(stopped.internalName))), calls)
  }

  /**
   * A successful expiry answers the re-fetched study with the stop outcome as its status and
   * leaves it stored under its new name; the stored study counts as expired exactly when the
   * provider completed it on stopping. Whatever the outcome, every other study is kept.
   */
  lemma ExpiryMarksStudy(faults: map<Call, string>, stopOutcome: StudyStatus, studies: seq<Study>, id: string)
    ensures var e := Expiry(faults, stopOutcome, studies, id);
      e.result.Ok? ==>
        && StoredStudy(studies, id).Some?
        && e.result.value == StoredStudy(studies, id).value.(status := stopOutcome)
        && StoredStudy(e.studies, id) == Some(e.result.value.(internalName := MarkedExpired(e.result.value.internalName)))
        && (IsStudyExpired(StoredStudy(e.studies, id).value) <==> stopOutcome == Completed)
    ensures var e := Expiry(faults, stopOutcome, studies, id);
      forall other :: other != id ==> StoredStudy(e.studies, other) == StoredStudy(studies, other)
  {
    var e := Expiry(faults, stopOutcome, studies, id);
    var fetched := RetrieveResponse(faults, StudiesRetrieve, studies, HasStudyId(id));
    if fetched.Ok? && StudiesStop !in faults {
      var stopped := fetched.value.(status := stopOutcome);
      var marked := stopped.(internalName := MarkedExpired(stopped.internalName));
      assert stopped.id == id && marked.id == id;
      forall other | other != id
        ensures StoredStudy(e.studies, other) == StoredStudy(studies, other)
      {
        SetStudyOthers(studies, stopped, other);
        SetStudyOthers(studies, marked, other);
      }
      if e.result.Ok? {
        SetStudyStored(studies, marked);
        ExpiredIffMarked(marked);
      }
    }
  }

  /** An expiry that fails leaves the studies as they were, unless only the renaming failed. */
  lemma ExpiryFailure(faults: map<Call, string>, stopOutcome: StudyStatus, studies: seq<Study>, id: string)
    ensures var e := Expiry(faults, stopOutcome, studies, id);
      e.result.Err? && StudiesUpdate !in e.calls ==> e.studies == studies
    ensures var e := Expiry(faults, stopOutcome, studies, id);
      e.result.Err? <==>
        || RetrieveResponse(faults, StudiesRetrieve, studies, HasStudyId(id)).Err?
        || StudiesStop in faults || StudiesUpdate in faults
  {
  }

  /**
   * Each step of an expiry aborts the steps after it and answers its own error message: a
   * failed re-fetch issues no stop and no rename, a failed stop issues no rename.
   */
  lemma ExpiryAborts(faults: map<Call, string>, stopOutcome: StudyStatus, studies: seq<Study>, id: string)
    ensures var fetched := RetrieveResponse(faults, StudiesRetrieve, studies, HasStudyId(id));
      fetched.Err? ==> Expiry(faults, stopOutcome, studies, id) == Outcome(Err(fetched.message), studies, [StudiesRetrieve])
    ensures var fetched := RetrieveResponse(faults, StudiesRetrieve, studies, HasStudyId(id));
      var e := Expiry(faults, stopOutcome, studies, id);
      fetched.Ok? && StudiesStop in faults ==>
        e.result == Err(faults[StudiesStop]) && StudiesUpdate !in e.calls && e.studies == studies
    ensures var fetched := RetrieveResponse(faults, StudiesRetrieve, studies, HasStudyId(id));
      var e := Expiry(faults, stopOutcome, studies, id);
      fetched.Ok? && StudiesStop !in faults ==>
        e.calls == [StudiesRetrieve, StudiesStop, StudiesUpdate]
        && (StudiesUpdate in faults ==> e.result == Err(faults[StudiesUpdate]))
  {
  }

  /** The provider's answers to the three calls of an expiry that gets past the re-fetch. */
  lemma ExpirySteps(faults: map<Call, string>, stopOutcome: StudyStatus, studies: seq<Study>, id: string)
    requires RetrieveResponse(faults, StudiesRetrieve, studies, HasStudyId(id)).Ok?
    ensures var fetched := RetrieveResponse(faults, StudiesRetrieve, studies, HasStudyId(id)).value;
      var stopped := fetched.(status := stopOutcome);
      var marked := stopped.(internalName := MarkedExpired(stopped.internalName));
      && ChangedStudy(faults, StudiesStop, studies, id, StopChange(stopOutcome))
         == (if StudiesStop in faults then Err(faults[StudiesStop]) else Ok(stopped))
      && (StudiesStop !in faults ==>
            && ChangedStudy(faults, StudiesUpdate, SetStudy(studies, stopped), id,
                 UpdateChange(Some(MarkedExpired(fetched.internalName)), None))
               == (if StudiesUpdate in faults then Err(faults[StudiesUpdate]) else Ok(marked))
            && SetStudy(SetStudy(studies, stopped), marked) == SetStudy(studies, marked))
  {
    var fetched := RetrieveResponse(faults, StudiesRetrieve, studies, HasStudyId(id)).value;
    var stopped := fetched.(status := stopOutcome);
    var marked := stopped.(internalName := MarkedExpired(stopped.internalName));
    assert fetched.id == id;
    SetStudyStored(studies, stopped);
    SetStudyTwice(studies, stopped, marked);
  }

  /** `expire_study`. */
  method ExpireStudy(client: Client, id: string) returns (r: Result<Study>)
    modifies client`log, client`studies
    ensures var e := Expiry(client.faults, client.stopOutcome, old(client.studies), id);
      r == e.result && client.studies == e.studies && client.log == old(client.log) + e.calls
  {
    ghost var e := Expiry(client.faults, client.stopOutcome, client.studies, id);
    var fetched := GetStudy(client, id);
    if fetched.Err? {
      assert e == Outcome(Err(fetched.message), client.studies, [StudiesRetrieve]);
      return Err(fetched.message);
    }
    ExpirySteps(client.faults, client.stopOutcome, client.studies, id);
    var stopped := client.StopStudy(id);
    LogAppend(old(client.log), [StudiesRetrieve], [StudiesStop]);
    if stopped.Err? {
      assert e == Outcome(Err(stopped.message), client.studies, [StudiesRetrieve, StudiesStop]);
      return Err(stopped.message);
    }
    ghost var logged := client.log;
    var renamed := client.UpdateStudy(id, Some(MarkedExpired(fetched.value.internalName)), None);
    assert client.log == logged + [StudiesUpdate];
    assert logged == old(client.log) + [StudiesRetrieve, StudiesStop];
    LogAppend(old(client.log), [StudiesRetrieve, StudiesStop], [StudiesUpdate]);
    assert [StudiesRetrieve, StudiesStop] + [StudiesUpdate] == [StudiesRetrieve, StudiesStop, StudiesUpdate];
    assert client.log == old(client.log) + [StudiesRetrieve, StudiesStop, StudiesUpdate];
    assert e.calls == [StudiesRetrieve, StudiesStop, StudiesUpdate];
    if renamed.Err? {
      assert e.result == Err(renamed.message) && e.studies == client.studies;
      return Err(renamed.message);
    }
    assert e.result == Ok(stopped.value) && e.studies == client.studies;
    r := Ok(stopped.value);
  }

  /**
   * `increase_total_available_places_for_study` on the provider's state: re-fetch the
   * study, then store it with `increment` more places, answering the stored study.
   */
  function Increase(faults: map<Call, string>, studies: seq<Study>, id: string, increment: nat): Outcome
  {
    match RetrieveResponse(faults, StudiesRetrieve, studies, HasStudyId(id))
    case Err(m) => Outcome(Err(m), studies, [StudiesRetrieve])
    case Ok(fetched) =>
      var increased := fetched.(totalAvailablePlaces := fetched.totalAvailablePlaces + increment);
      if StudiesUpdate in faults then Outcome(Err(faults[StudiesUpdate]), studies, [StudiesRetrieve, StudiesUpdate])
      else Outcome(Ok(increased), SetStudy(studies, increased), [StudiesRetrieve, StudiesUpdate])
  }

  /**
   * A successful increase stores the study with exactly `increment` more places and changes
   * nothing else about it; a failed one changes nothing.
   */
  lemma IncreaseAddsPlaces(faults: map<Call, string>, studies: seq<Study>, id: string, increment: nat)
    ensures var e := Increase(faults, studies, id, increment);
      e.result.Ok? ==>
        && StoredStudy(studies, id).Some?
        && e.result.value == StoredStudy(studies, id).value.(totalAvailablePlaces := StoredStudy(studies, id).value.totalAvailablePlaces + increment)
        && StoredStudy(e.studies, id) == Some(e.result.value)
    ensures var e := Increase(faults, studies, id, increment);
      e.result.Err? ==> e.studies == studies
    ensures var fetched := RetrieveResponse(faults, StudiesRetrieve, studies, HasStudyId(id));
      var e := Increase(faults, studies, id, increment);
      && e.calls == [StudiesRetrieve] + (if fetched.Ok? then [StudiesUpdate] else [])
      && (fetched.Err? ==> e.result == Err(fetched.message))
      && (fetched.Ok? && StudiesUpdate in faults ==> e.result == Err(faults[StudiesUpdate]))
    ensures var e := Increase(faults, studies, id, increment);
      forall other :: other != id ==> StoredStudy(e.studies, other) == StoredStudy(studies, other)
  {
    var e := Increase(faults, studies, id, increment);
    if e.result.Ok? {
      var fetched := RetrieveResponse(faults, StudiesRetrieve, studies, HasStudyId(id));
      assert fetched.Ok? && e.result.value.id == id;
      SetStudyStored(studies, e.result.value);
      forall other | other != id
        ensures StoredStudy(e.studies, other) == StoredStudy(studies, other)
      {
        SetStudyOthers(studies, e.result.value, other);
      }
    }
  }

  /** `increase_total_available_places_for_study`. */
  method IncreaseTotalAvailablePlaces(client: Client, id: string, increment: nat) returns (r: Result<Study>)
    modifies client`log, client`studies
    ensures var e := Increase(client.faults, old(client.studies), id, increment);
      r == e.result && client.studies == e.studies && client.log == old(client.log) + e.calls
  {
    ghost var e := Increase(client.faults, client.studies, id, increment);
    var fetched := GetStudy(client, id);
    if fetched.Err? {
      assert e == Outcome(Err(fetched.message), client.studies, [StudiesRetrieve]);
      return Err(fetched.message);
    }
    var current := fetched.value;
    ghost var logged := client.log;
    var updated := client.UpdateStudy(id, None, Some(current.totalAvailablePlaces + increment));
    assert client.log == logged + [StudiesUpdate];
    LogAppend(old(client.log), [StudiesRetrieve], [StudiesUpdate]);
    assert [StudiesRetrieve] + [StudiesUpdate] == [StudiesRetrieve, StudiesUpdate];
    assert e.calls == [StudiesRetrieve, StudiesUpdate];
    if updated.Err? {
      assert e.result == Err(updated.message) && e.studies == client.studies;
      return Err(updated.message);
    }
    assert e.result == updated && e.studies == client.studies;
    r := updated;
  }

  /**
   * `create_study`: creates an unpublished study in the project, then updates it (the
   * completion codes it attaches are not modelled); answers the created study.
   */
  method CreateStudy(client: Client, projectId: string, name: string, internalName: string, places: nat, newId: string)
    returns (r: Result<Study>)
    requires StoredStudy(client.studies, newId).None?
    modifies client`log, client`studies
    ensures var created := Study(newId, projectId, name, internalName, Unpublished, places);
      && (StudiesCreate in client.faults ==>
            r == Err(client.faults[StudiesCreate]) && client.studies == old(client.studies)
            && client.log == old(client.log) + [StudiesCreate])
      && (StudiesCreate !in client.faults ==>
            && client.studies == old(client.studies) + [created]
            && client.log == old(client.log) + [StudiesCreate, StudiesUpdate]
            && r == if StudiesUpdate in client.faults then Err(client.faults[StudiesUpdate]) else Ok(created))
    ensures r.Ok? ==> r.value.id == newId && StoredStudy(client.studies, newId) == Some(r.value)
  {
    var created := client.CreateStudy(projectId, name, internalName, places, newId);
    if created.Err? {
      return Err(created.message);
    }
    var study := created.value;
    ghost var withStudy := client.studies;
    FindFirstAppend(old(client.studies), study, HasStudyId(newId));
    var updated := client.UpdateStudy(study.id, None, None);
    LogAppend(old(client.log), [StudiesCreate], [StudiesUpdate]);
    assert client.log == old(client.log) + [StudiesCreate, StudiesUpdate];
    if updated.Err? {
      return Err(updated.message);
    }
    SetStudySame(withStudy, study);
    r := Ok(study);
  }
}
