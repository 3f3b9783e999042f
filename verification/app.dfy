/** The screen's state and its handlers: running an analysis, syncing a
    queued record, resetting, removing a captured image and deleting a record
    from the notebook, and what the result card shows for the active record.
    The clock, the random record id, the image load and the cloud reply are
    parameters of the handlers. */
module App {
  import opened Outcomes
  import opened Text
  import opened Records
  import opened Storage
  import opened Cloud
  import Numeric
  import Report
  import Sensitivity

  /** The component's state, with the storage slot it reads and writes. */
  datatype State = State(
    images: seq<UploadedImage>,
    mode: AppMode,
    sensitivity: int,
    isAnalyzing: bool,
    activeRecord: Option<FieldRecord>,
    error: Option<string>,
    isOnline: bool,
    records: seq<FieldRecord>,
    manualLog: ManualLog,
    cache: Cache)

  /** The state after mounting: professional mode at sensitivity 60, nothing
      captured, and the notebook read from storage. */
  function Initial(cache: Cache, isOnline: bool): (st: State)
    ensures st.images == [] && st.activeRecord.None? && st.error.None? && !st.isAnalyzing
    ensures st.records == GetRecords(cache) && st.cache == cache && st.isOnline == isOnline
    ensures Sensitivity.SliderValue(st.sensitivity) && Sensitivity.Label(st.sensitivity) == Sensitivity.Balanced
    ensures !HasKeys(st.manualLog)
    ensures st.mode == Professional && st.sensitivity == Sensitivity.InitialSensitivity && st.manualLog == EmptyLog
  {
    Sensitivity.InitialBalanced();
    State([], Professional, Sensitivity.InitialSensitivity, false, None, None, isOnline,
      GetRecords(cache), EmptyLog, cache)
  }

  const NoImagesError: string := "Please capture or upload images " + "for analysis."
  const OfflineNotice: string := "Offline mode. Local heuristic " + "generated. Analysis saved for " + "cloud sync."
  const ComputationFailed: string := "Geological computation failed."
  const SyncFailed: string := "Sync failed. Connection might " + "be unstable."

  // Images

  /** The images as a record keeps them. */
  function Refs(images: seq<UploadedImage>): (rs: seq<ImageRef>)
    ensures |rs| == |images|
    ensures forall i :: 0 <= i < |images| ==> rs[i] == ImageRef(images[i].base64, images[i].mimeType, images[i].url)
  {
    seq(|images|, i requires 0 <= i < |images| => ImageRef(images[i].base64, images[i].mimeType, images[i].url))
  }

  /** Images, captured or kept by a record, as the service receives them. */
  function Payloads(refs: seq<ImageRef>): (ps: seq<Payload>)
    ensures |ps| == |refs|
    ensures forall i :: 0 <= i < |refs| ==> ps[i] == Payload(refs[i].base64, refs[i].mimeType)
  {
    seq(|refs|, i requires 0 <= i < |refs| => Payload(refs[i].base64, refs[i].mimeType))
  }

  /** How many images carry the id. */
  function CountImage(images: seq<UploadedImage>, id: string): (n: nat)
    ensures n <= |images|
    ensures n == 0 <==> forall k :: 0 <= k < |images| ==> images[k].id != id
  {
    if |images| == 0 then 0
    else CountImage(images[..|images| - 1], id) + (if images[|images| - 1].id == id then 1 else 0)
  }

  /** The images whose id differs, in their order. */
  function ImagesWithout(images: seq<UploadedImage>, id: string): (kept: seq<UploadedImage>)
    ensures |kept| == |images| - CountImage(images, id)
    ensures CountImage(kept, id) == 0
  {
    if |images| == 0 then []
    else
      var last := images[|images| - 1];
      ImagesWithout(images[..|images| - 1], id) + (if last.id == id then [] else [last])
  }

  /** Every kept image is one of the originals. */
  lemma {:induction false} ImagesWithoutFromOriginals(images: seq<UploadedImage>, id: string)
    ensures forall k :: 0 <= k < |ImagesWithout(images, id)| ==> ImagesWithout(images, id)[k] in images
    decreases |images|
  {
    if |images| != 0 {
      ImagesWithoutFromOriginals(images[..|images| - 1], id);
    }
  }

  /** Every original whose id differs is kept. */
  lemma {:induction false} ImagesWithoutKeepsOthers(images: seq<UploadedImage>, id: string)
    ensures forall k :: 0 <= k < |images| && images[k].id != id ==> images[k] in ImagesWithout(images, id)
    decreases |images|
  {
    if |images| != 0 {
      var init := images[..|images| - 1];
      ImagesWithoutKeepsOthers(init, id);
      forall k | 0 <= k < |images| && images[k].id != id
        ensures images[k] in ImagesWithout(images, id)
      {
        if k < |init| {
          assert init[k] in ImagesWithout(init, id);
        }
      }
    }
  }

  /** A list without the id is its own filter. */
  lemma {:induction false} ImagesWithoutNone(images: seq<UploadedImage>, id: string)
    requires CountImage(images, id) == 0
    ensures ImagesWithout(images, id) == images
    decreases |images|
  {
    if |images| != 0 {
      ImagesWithoutNone(images[..|images| - 1], id);
    }
  }

  /** `removeImage`: drop the captured images with the id. */
  function RemoveImage(st: State, id: string): (st': State)
    ensures st'.images == ImagesWithout(st.images, id)
    ensures st'.(images := st.images) == st
  {
    st.(images := ImagesWithout(st.images, id))
  }

  /** Removing an image twice is removing it once, and removing every image
      leaves nothing to analyse. */
  lemma RemoveImageIdempotent(st: State, id: string)
    ensures RemoveImage(RemoveImage(st, id), id) == RemoveImage(st, id)
    ensures CountImage(RemoveImage(st, id).images, id) == 0
  {
    ImagesWithoutNone(ImagesWithout(st.images, id), id);
  }

  // Running an analysis

  /** The request `runAnalysis` hands the service: every captured image, the
      current mode and sensitivity, and the log object even when it is empty. */
  function AnalysisRequest(st: State): (q: Request)
    ensures q.temperature == Temperature(st.sensitivity)
    ensures |q.parts| == |st.images| + 1
    ensures q.parts[|st.images|] == TextPart(Prompt(ModeText(st.mode), st.sensitivity, Some(st.manualLog)))
  {
    BuildRequest(Payloads(Refs(st.images)), ModeText(st.mode), st.sensitivity, Some(st.manualLog))
  }

  /** The new record before the cloud's answer. The log is kept only when it
      has a key. */
  function NewRecord(st: State, id: string, now: int, heuristic: string): FieldRecord
  {
    FieldRecord(id, Refs(st.images), ModeText(st.mode), now, None, Some(heuristic), None, !st.isOnline,
      if HasKeys(st.manualLog) then Some(st.manualLog) else None)
  }

  /** The record saved, made active, and the notebook reread. */
  function File(st: State, r: FieldRecord): State
  {
    var c := Save(st.cache, r);
    st.(cache := c, records := GetRecords(c), activeRecord := Some(r))
  }

  /** `r` was saved into `st`'s slot and is active in `st'`. */
  predicate Filed(st: State, st': State, r: FieldRecord)
  {
    st'.activeRecord == Some(r) && st'.cache == Save(st.cache, r) && st'.records == GetRecords(st'.cache)
  }

  /** `r` is the record an analysis of `st` at `now` under `id` writes. */
  predicate WrittenFrom(st: State, r: FieldRecord, id: string, now: int, load: Report.Load)
  {
    && r.id == id && r.timestamp == now && r.mode == ModeText(st.mode)
    && r.images == Refs(st.images) && r.result.None?
    && r.heuristicResult.Some?
    && (Report.MarkedOffline(r.heuristicResult.value) <==> load.Loaded?)
    && r.heuristicResult.value != ""
    && (r.manualLog.Some? <==> HasKeys(st.manualLog))
    && (r.manualLog.Some? ==> r.manualLog.value == st.manualLog)
  }

  /** `runAnalysis`. `load` is how loading the first image ended, `reply` what
      the service call with `AnalysisRequest(st)` did; offline it is not made. */
  function RunAnalysis(st: State, id: string, now: int, load: Report.Load, sqrt: real -> real, reply: Reply): (st': State)
    requires Numeric.IsSqrt(sqrt)
    ensures st'.images == st.images && st'.mode == st.mode && st'.sensitivity == st.sensitivity
    ensures st'.isOnline == st.isOnline && st'.manualLog == st.manualLog
    ensures |st.images| != 0 ==> !st'.isAnalyzing
    ensures st'.error.Some? ==> st'.error.value != ""
  {
    if |st.images| == 0 then st.(error := Some(NoImagesError))
    else
      var record := NewRecord(st, id, now, Report.RunLocalHeuristic(load, sqrt));
      var done := st.(isAnalyzing := false, error := None);
      if st.isOnline then
        match AnalyzeGeology(reply)
        case Success(text) => File(done, record.(cloudResult := Some(text)))
        case Failure(message) => done.(error := Some(if message != "" then message else ComputationFailed))
      else
        File(done, record.(isQueued := true)).(error := Some(OfflineNotice))
  }

  /** Without images nothing is analysed, saved or shown; only the error is set. */
  lemma AnalysisNeedsImages(st: State, id: string, now: int, load: Report.Load, sqrt: real -> real, reply: Reply)
    requires Numeric.IsSqrt(sqrt)
    requires |st.images| == 0
    ensures var st' := RunAnalysis(st, id, now, load, sqrt, reply);
      && st'.error == Some(NoImagesError)
      && st'.cache == st.cache && st'.records == st.records && st'.activeRecord == st.activeRecord
      && st'.isAnalyzing == st.isAnalyzing
  {
  }

  /** Online with an answer: the record carries the cloud text, is not queued,
      is saved first in the notebook and becomes active; the error is cleared. */
  lemma AnalysisAnswered(st: State, id: string, now: int, load: Report.Load, sqrt: real -> real, reply: Reply)
    requires Numeric.IsSqrt(sqrt)
    requires |st.images| != 0 && st.isOnline && reply.Answered?
    ensures var st' := RunAnalysis(st, id, now, load, sqrt, reply);
      && st'.activeRecord.Some?
      && Filed(st, st', st'.activeRecord.value)
      && WrittenFrom(st, st'.activeRecord.value, id, now, load)
      && st'.activeRecord.value.cloudResult == Some(AnalyzeGeology(reply).value)
      && !st'.activeRecord.value.isQueued
      && st'.error.None?
  {
    Report.HeuristicNonEmpty(load, sqrt);
  }

  /** Online without an answer: nothing is saved, the active record stays, and
      the error is the failure's message or the generic one. */
  lemma AnalysisFailed(st: State, id: string, now: int, load: Report.Load, sqrt: real -> real, reply: Reply)
    requires Numeric.IsSqrt(sqrt)
    requires |st.images| != 0 && st.isOnline && !reply.Answered?
    ensures var st' := RunAnalysis(st, id, now, load, sqrt, reply);
      && st'.cache == st.cache && st'.records == st.records && st'.activeRecord == st.activeRecord
      && (reply.Threw? ==> st'.error == Some(EngineFailure))
      && (reply.ClientFailed? && reply.message != "" ==> st'.error == Some(reply.message))
      && (reply.ClientFailed? && reply.message == "" ==> st'.error == Some(ComputationFailed))
  {
  }

  /** Offline: the record has no cloud text, is queued, saved and active, and
      the offline notice is shown. */
  lemma AnalysisOffline(st: State, id: string, now: int, load: Report.Load, sqrt: real -> real, reply: Reply)
    requires Numeric.IsSqrt(sqrt)
    requires |st.images| != 0 && !st.isOnline
    ensures var st' := RunAnalysis(st, id, now, load, sqrt, reply);
      && st'.activeRecord.Some?
      && Filed(st, st', st'.activeRecord.value)
      && WrittenFrom(st, st'.activeRecord.value, id, now, load)
      && st'.activeRecord.value.cloudResult.None?
      && st'.activeRecord.value.isQueued
      && st'.error == Some(OfflineNotice)
  {
    Report.HeuristicNonEmpty(load, sqrt);
  }

  // Syncing a queued record

  /** The request `syncRecord` hands the service: the record's images, its
      stored mode text and log, and the sensitivity the slider shows now. */
  function SyncRequest(st: State, r: FieldRecord): (q: Request)
    ensures q.temperature == Temperature(st.sensitivity)
    ensures |q.parts| == |r.images| + 1
    ensures q.parts[|r.images|] == TextPart(Prompt(r.mode, st.sensitivity, r.manualLog))
  {
    BuildRequest(Payloads(r.images), r.mode, st.sensitivity, r.manualLog)
  }

  /** Syncing a record that an analysis wrote sends the same images, in the
      same order, with the same mode instruction. */
  lemma SyncResendsAnalysis(st: State, st2: State, r: FieldRecord, id: string, now: int, load: Report.Load)
    requires WrittenFrom(st, r, id, now, load)
    ensures forall i :: 0 <= i < |st.images| ==> SyncRequest(st2, r).parts[i] == AnalysisRequest(st).parts[i]
    ensures InstructionFor(r.mode) == ModeInstruction(st.mode)
  {
    InstructionForMode(st.mode);
  }

  /** The log differs when the form was empty: the analysis sent the empty
      object and printed "N/A" twice, the record kept no log and its sync
      prints no observations. */
  lemma SyncDropsEmptyLog(st: State, r: FieldRecord, id: string, now: int, load: Report.Load)
    requires WrittenFrom(st, r, id, now, load)
    requires !HasKeys(st.manualLog)
    ensures LogContext(r.manualLog) == "" && LogContext(Some(st.manualLog)) != ""
  {
    LogContextEmptyIff(r.manualLog);
    LogContextEmptyIff(Some(st.manualLog));
  }

  /** `syncRecord`. `reply` is what the service call with `SyncRequest(st, r)`
      did. Offline the handler returns at once. */
  function SyncRecord(st: State, r: FieldRecord, reply: Reply): (st': State)
    ensures !st.isOnline ==> st' == st
    ensures st.isOnline ==> !st'.isAnalyzing
    ensures st'.images == st.images && st'.mode == st.mode && st'.sensitivity == st.sensitivity
    ensures st'.isOnline == st.isOnline && st'.manualLog == st.manualLog
  {
    if !st.isOnline then st
    else
      match AnalyzeGeology(reply)
      case Success(text) =>
        var c := Update(st.cache, r.id, text);
        var rs := GetRecords(c);
        var active :=
          match FindIndex(rs, r.id)
          case Some(k) =>
            if st.activeRecord.Some? && st.activeRecord.value.id == r.id then Some(rs[k]) else st.activeRecord
          case None => st.activeRecord;
        st.(cache := c, records := rs, activeRecord := active, isAnalyzing := false)
      case Failure(_) => st.(error := Some(SyncFailed), isAnalyzing := false)
  }

  /** An answered sync of a stored record: the first record with its id is
      synced in the notebook and everything else there stays; an active record
      with that id is replaced by the synced one. The error is not cleared. */
  lemma SyncAnswered(st: State, r: FieldRecord, reply: Reply, k: nat)
    requires st.isOnline && reply.Answered?
    requires k < |GetRecords(st.cache)| && GetRecords(st.cache)[k].id == r.id
    requires forall j :: 0 <= j < k ==> GetRecords(st.cache)[j].id != r.id
    ensures var st' := SyncRecord(st, r, reply); var text := AnalyzeGeology(reply).value;
      && st'.records == GetRecords(st'.cache)
      && |st'.records| == |GetRecords(st.cache)|
      && st'.records[k] == Synced(GetRecords(st.cache)[k], text)
      && (forall j :: 0 <= j < |st'.records| && j != k ==> st'.records[j] == GetRecords(st.cache)[j])
      && (st.activeRecord.Some? && st.activeRecord.value.id == r.id ==> st'.activeRecord == Some(st'.records[k]))
      && (st.activeRecord.None? || st.activeRecord.value.id != r.id ==> st'.activeRecord == st.activeRecord)
      && st'.error == st.error
  {
    UpdatePresent(st.cache, r.id, AnalyzeGeology(reply).value, k);
  }

  /** An answered sync of a record no longer stored writes nothing and leaves
      the active record alone. */
  lemma SyncAnsweredAbsent(st: State, r: FieldRecord, reply: Reply)
    requires st.isOnline && reply.Answered?
    requires CountId(GetRecords(st.cache), r.id) == 0
    ensures var st' := SyncRecord(st, r, reply);
      st'.cache == st.cache && st'.activeRecord == st.activeRecord && st'.records == GetRecords(st.cache)
  {
    UpdateAbsent(st.cache, r.id, AnalyzeGeology(reply).value);
  }

  /** A failed sync changes no record and reports the fixed message. */
  lemma SyncFailedKeeps(st: State, r: FieldRecord, reply: Reply)
    requires st.isOnline && !reply.Answered?
    ensures var st' := SyncRecord(st, r, reply);
      && st'.cache == st.cache && st'.records == st.records && st'.activeRecord == st.activeRecord
      && st'.error == Some(SyncFailed)
  {
  }

  // Reset and the notebook

  /** `reset`: back to capturing, keeping the mode, the sensitivity and the
      notebook. */
  function Reset(st: State): (st': State)
    ensures st'.images == [] && st'.activeRecord.None? && st'.error.None? && !HasKeys(st'.manualLog)
    ensures st'.mode == st.mode && st'.sensitivity == st.sensitivity
    ensures st'.cache == st.cache && st'.records == st.records
    ensures st'.isOnline == st.isOnline && st'.isAnalyzing == st.isAnalyzing
  {
    st.(images := [], activeRecord := None, error := None, manualLog := EmptyLog)
  }

  /** Resetting twice is resetting once, and an analysis right after a reset
      only asks for images. */
  lemma ResetThenAnalyze(st: State, id: string, now: int, load: Report.Load, sqrt: real -> real, reply: Reply)
    requires Numeric.IsSqrt(sqrt)
    ensures Reset(Reset(st)) == Reset(st)
    ensures var st' := RunAnalysis(Reset(st), id, now, load, sqrt, reply);
      st'.error == Some(NoImagesError) && st'.activeRecord.None? && st'.cache == st.cache
  {
  }

  /** The notebook's delete button: delete by id and reread. */
  function DeleteRecord(st: State, id: string): (st': State)
    ensures st'.records == GetRecords(st'.cache)
    ensures CountId(st'.records, id) == 0
    ensures st'.activeRecord == st.activeRecord
  {
    var c := Delete(st.cache, id);
    st.(cache := c, records := GetRecords(c))
  }

  /** Deleting keeps every record with another id, and the active record is
      not cleared even when it was the one deleted. */
  lemma DeleteKeepsOthers(st: State, id: string, other: string)
    requires other != id
    ensures CountId(DeleteRecord(st, id).records, other) == CountId(GetRecords(st.cache), other)
    ensures DeleteRecord(DeleteRecord(st, id), id) == DeleteRecord(st, id)
  {
    DeleteProperties(st.cache, id, other);
  }

  // The result card

  /** `cloudResult || heuristicResult || result || ""`. */
  function Content(r: FieldRecord): (t: string)
  {
    if Truthy(r.cloudResult) then r.cloudResult.value
    else if Truthy(r.heuristicResult) then r.heuristicResult.value
    else if Truthy(r.result) then r.result.value
    else ""
  }

  /** The first present, non-empty text of a list, or "". */
  function FirstText(ts: seq<Option<string>>): (t: string)
    ensures t == "" <==> forall i :: 0 <= i < |ts| ==> !Truthy(ts[i])
    ensures t != "" ==>
      exists i :: 0 <= i < |ts| && Truthy(ts[i]) && ts[i].value == t && forall j :: 0 <= j < i ==> !Truthy(ts[j])
  {
    if |ts| == 0 then "" else if Truthy(ts[0]) then ts[0].value else FirstText(ts[1..])
  }

  /** The card shows the first non-empty text in the order cloud, heuristic,
      legacy result; it is empty only when all three are. */
  lemma ContentIsFirstText(r: FieldRecord)
    ensures Content(r) == FirstText([r.cloudResult, r.heuristicResult, r.result])
    ensures Content(r) == "" <==> !Truthy(r.cloudResult) && !Truthy(r.heuristicResult) && !Truthy(r.result)
  {
    var t2 := [r.result];
    var t1 := [r.heuristicResult] + t2;
    var ts := [r.cloudResult] + t1;
    assert t2[1..] == [];
    assert FirstText(t2) == if Truthy(r.result) then r.result.value else "";
    assert t1[1..] == t2;
    assert FirstText(t1) == if Truthy(r.heuristicResult) then r.heuristicResult.value else FirstText(t2);
    assert ts[1..] == t1;
    assert ts == [r.cloudResult, r.heuristicResult, r.result];
  }

  /** The comparison pane: the heuristic text, only beside a cloud answer. */
  function Comparison(r: FieldRecord): (t: Option<string>)
  {
    if Truthy(r.cloudResult) then r.heuristicResult else None
  }

  const OfflineBadge: string := "OFFLINE HEURISTIC"

  /** The badge over the card: the mode upper-cased beside a cloud answer,
      else the offline badge. */
  function Badge(r: FieldRecord): (t: string)
  {
    if Truthy(r.cloudResult) then Upper(r.mode) else OfflineBadge
  }

  /** For a record of one of the three modes the badge reads offline exactly
      when there is no cloud text. */
  lemma BadgeOfflineIff(r: FieldRecord, m: AppMode)
    requires r.mode == ModeText(m)
    ensures Badge(r) == OfflineBadge <==> !Truthy(r.cloudResult)
  {
    if Truthy(r.cloudResult) {
      assert Upper(r.mode)[0] == r.mode[0];
      assert OfflineBadge[0] == 'O';
    }
  }

  /** Whether the card offers the sync button: a queued record while online. */
  predicate SyncOffered(st: State, r: FieldRecord)
  {
    r.isQueued && st.isOnline
  }

  /** After an answered analysis the card shows the cloud text with the
      heuristic beside it under the mode's badge, with no sync button. */
  lemma AnsweredCard(st: State, id: string, now: int, load: Report.Load, sqrt: real -> real, reply: Reply)
    requires Numeric.IsSqrt(sqrt)
    requires |st.images| != 0 && st.isOnline && reply.Answered?
    ensures var st' := RunAnalysis(st, id, now, load, sqrt, reply); var r := st'.activeRecord.value;
      && Content(r) == AnalyzeGeology(reply).value
      && Comparison(r) == r.heuristicResult
      && Badge(r) == Upper(ModeText(st.mode))
      && !SyncOffered(st', r)
  {
    AnalysisAnswered(st, id, now, load, sqrt, reply);
  }

  /** After an offline analysis the card shows the heuristic text alone under
      the offline badge; it opens with the offline marker exactly when the
      image loaded, and the record is offered for sync once back online. */
  lemma OfflineCard(st: State, id: string, now: int, load: Report.Load, sqrt: real -> real, reply: Reply)
    requires Numeric.IsSqrt(sqrt)
    requires |st.images| != 0 && !st.isOnline
    ensures var st' := RunAnalysis(st, id, now, load, sqrt, reply); var r := st'.activeRecord.value;
      && Content(r) == r.heuristicResult.value
      && (Report.MarkedOffline(Content(r)) <==> load.Loaded?)
      && Comparison(r).None?
      && Badge(r) == OfflineBadge
      && SyncOffered(st'.(isOnline := true), r)
  {
    AnalysisOffline(st, id, now, load, sqrt, reply);
  }

  /** After an answered sync of the active record the card switches to the
      cloud text with the heuristic beside it, and the sync button goes. */
  lemma SyncedCard(st: State, r: FieldRecord, reply: Reply, k: nat)
    requires st.isOnline && reply.Answered?
    requires k < |GetRecords(st.cache)| && GetRecords(st.cache)[k].id == r.id
    requires forall j :: 0 <= j < k ==> GetRecords(st.cache)[j].id != r.id
    requires st.activeRecord.Some? && st.activeRecord.value.id == r.id
    ensures var st' := SyncRecord(st, r, reply); var a := st'.activeRecord.value;
      && Content(a) == AnalyzeGeology(reply).value
      && Comparison(a) == GetRecords(st.cache)[k].heuristicResult
      && !SyncOffered(st', a)
  {
    SyncAnswered(st, r, reply, k);
  }
}
