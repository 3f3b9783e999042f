/** The records the app keeps: analysis modes, captured images, the optional
    manual field log, and one field record per analysis. */
module Records {
  import opened Outcomes

  /** `AppMode`, with the display strings its enum values carry. */
  datatype AppMode = Teaching | Professional | Exploration

  function ModeText(m: AppMode): (t: string)
  {
    match m
    case Teaching => "Teaching Mode"
    case Professional => "Professional Mode"
    case Exploration => "Exploration Mode"
  }

  /** A stored mode string read back as a mode; `None` for anything else. */
  function ParseMode(t: string): (m: Option<AppMode>)
    ensures m.Some? ==> ModeText(m.value) == t
  {
    if t == ModeText(Teaching) then Some(Teaching)
    else if t == ModeText(Professional) then Some(Professional)
    else if t == ModeText(Exploration) then Some(Exploration)
    else None
  }

  /** Each mode's text reads back as that mode, so the three texts differ. */
  lemma ModeRoundTrip(m: AppMode)
    ensures ParseMode(ModeText(m)) == Some(m)
  {
    match m
    case Teaching =>
      assert ModeText(Teaching)[0] == 'T';
    case Professional =>
      assert ModeText(Professional)[0] == 'P';
      assert ModeText(Teaching)[0] == 'T';
    case Exploration =>
      assert ModeText(Exploration)[0] == 'E';
      assert ModeText(Professional)[0] == 'P';
      assert ModeText(Teaching)[0] == 'T';
  }

  /** An image as the record keeps it. */
  datatype ImageRef = ImageRef(base64: string, mimeType: string, url: string)

  /** An image in the capture list, with the id the remove button uses. */
  datatype UploadedImage = UploadedImage(id: string, url: string, base64: string, mimeType: string)

  /** The manual log object: each field is either absent (no key) or present. */
  datatype ManualLog = ManualLog(
    gps: Option<(real, real)>,
    textureNotes: Option<string>,
    mineralObservations: Option<string>)

  const EmptyLog: ManualLog := ManualLog(None, None, None)

  /** `Object.keys(log).length > 0`. */
  predicate HasKeys(log: ManualLog)
  {
    log.gps.Some? || log.textureNotes.Some? || log.mineralObservations.Some?
  }

  /** `FieldRecord`. The mode is stored as its text. */
  datatype FieldRecord = FieldRecord(
    id: string,
    images: seq<ImageRef>,
    mode: string,
    timestamp: int,
    result: Option<string>,
    heuristicResult: Option<string>,
    cloudResult: Option<string>,
    isQueued: bool,
    manualLog: Option<ManualLog>)

  /** A JavaScript string in a boolean position: present and non-empty. */
  predicate Truthy(s: Option<string>)
  {
    s.Some? && s.value != ""
  }
}
