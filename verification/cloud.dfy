/** The cloud request: the prompt, its parts and the generation settings the
    app sends, and how the answer or the failure is turned into a result. The
    network client itself is not modelled; its outcome is a parameter. */
module Cloud {
  import opened Outcomes
  import opened Text
  import opened Records
  import opened Sensitivity

  const ModelName: string := "gemini-3-flash-preview"

  /** The system instruction, in short pieces. */
  const SystemPrompt: string :=
    "You are RIVERLITHOSCOPE, a " + "high-confidence, multimodal " + "Geological AI Assistant and Advisor, "
    + "specialized in riverine, fluvial, " + "and drainage-controlled geology.\n"
    + "You analyze field photographs, " + "riverbed images, boulders, gravels, " + "hand specimens, fossils, "
    + "gemstones, polished samples, " + "thin-section photomicrographs, " + "satellite imagery, and maps to "
    + "identify, classify, and interpret " + "geological materials found along " + "rivers and drainage systems.\n"
    + "Your reasoning must be visual-first, " + "context-aware, and source-to-sink " + "focused.\n"
    + "\n"
    + "Output Structure (Strict):\n"
    + "1. Identification Summary: " + "High-level overview.\n"
    + "2. Drainage & River Context: " + "Pattern, position (Upper/Middle/Lower), " + "energy regime, "
    + "sediment characteristics.\n"
    + "3. Transport & Weathering History: " + "Grain size, sorting, roundness, " + "transport indicators.\n"
    + "4. Fossil / Gem / Mineral Assessment: " + "Detailed IDs of fossils or minerals.\n"
    + "5. Economic Significance: Placer " + "Probability Score (%) and potential " + "classification "
    + "(Low/Moderate/High).\n"
    + "6. Confidence Level (%): " + "Your estimated accuracy.\n"
    + "7. Exploration Recommendations: " + "Upstream guidance, sampling zones.\n"
    + "\n"
    + "Mandatory Footer:\n"
    + "Expert App Developer: " + "Muhammad Yasin Khan\n"
    + "Powered By: Google Gemini 3 " + "Flash Preview"

  /** The one system instruction every request carries, by name; its text is
      `SystemPrompt`. */
  datatype SystemInstruction = GeologyAdvisor
  {
    function Text(): (t: string)
    {
      SystemPrompt
    }
  }

  /** `modeInstructions`: one instruction per mode. */
  function ModeInstruction(m: AppMode): (t: string)
  {
    match m
    case Teaching =>
      "Use simple explanations, educational " + "diagrams descriptions, and focus on " + "foundational learning."
    case Professional =>
      "Use advanced technical terminology, " + "discuss tectonics, provenance, and " + "detailed lithology."
    case Exploration =>
      "Focus heavily on economic geology, " + "placer probability, and specific " + "mining/sampling targets."
  }

  /** `modeInstructions[mode]` for a mode given as text: a stored record's mode
      that is not one of the three enum strings looks up nothing and is
      interpolated as "undefined". */
  function InstructionFor(mode: string): (t: string)
    ensures ParseMode(mode).Some? ==> t == ModeInstruction(ParseMode(mode).value)
    ensures ParseMode(mode).None? ==> t == "undefined"
  {
    match ParseMode(mode)
    case Some(m) => ModeInstruction(m)
    case None => "undefined"
  }

  lemma InstructionForMode(m: AppMode)
    ensures InstructionFor(ModeText(m)) == ModeInstruction(m)
  {
    ModeRoundTrip(m);
  }

  const SpeculativeGuidance: string :=
    "Be SPECULATIVE: Flag even subtle " + "morphological patterns or ambiguous " + "mineral traces. "
    + "Prioritize identifying potential " + "features over certainty."
  const ConservativeGuidance: string :=
    "Be CONSERVATIVE: Only report features " + "that are clearly identifiable with " + "high visual evidence. "
    + "Avoid speculation on ambiguous " + "textures."
  const BalancedGuidance: string :=
    "Be BALANCED: Provide standard " + "professional interpretation of " + "visual evidence "
    + "with appropriate caveats."

  /** `sensitivityGuidance`, with the service's own copy of the thresholds. */
  function Guidance(sensitivity: int): (t: string)
  {
    if sensitivity < 30 then SpeculativeGuidance
    else if sensitivity > 70 then ConservativeGuidance
    else BalancedGuidance
  }

  function GuidanceFor(s: Stance): (t: string)
  {
    match s
    case Speculative => SpeculativeGuidance
    case Balanced => BalancedGuidance
    case Conservative => ConservativeGuidance
  }

  /** The prompt's guidance follows the same partition as the label the
      selector shows. */
  lemma GuidanceAgreesWithLabel(sensitivity: int)
    ensures Guidance(sensitivity) == GuidanceFor(Label(sensitivity))
  {
  }

  /** `sensitivity < 40 ? 0.7 : 0.3`. */
  function Temperature(sensitivity: int): (t: real)
    ensures t == 0.7 || t == 0.3
    ensures t == 0.7 <==> sensitivity < 40
  {
    if sensitivity < 40 then 0.7 else 0.3
  }

  /** The temperature threshold is not the label's: exactly the slider values
      30 and 35 are labelled balanced yet sampled at the speculative 0.7. */
  lemma TemperatureDisagrees(v: int)
    requires SliderValue(v)
    ensures Label(v) == Balanced && Temperature(v) == 0.7 <==> v == 30 || v == 35
  {
  }

  /** `value || "N/A"`. */
  function OrNotAvailable(field: Option<string>): (t: string)
    ensures Truthy(field) ==> t == field.value
    ensures !Truthy(field) ==> t == "N/A"
  {
    if Truthy(field) then field.value else "N/A"
  }

  const ObservationsHead: string := "\n  FIELD OBSERVATIONS:\n  - Texture: "
  const MineralogyHead: string := "\n  - Mineralogy: "

  /** `logContext`: empty only without a log object; any object, even one
      without keys, gives both lines. */
  function LogContext(log: Option<ManualLog>): (t: string)
  {
    match log
    case None => ""
    case Some(l) =>
      ObservationsHead + OrNotAvailable(l.textureNotes) + MineralogyHead + OrNotAvailable(l.mineralObservations)
  }

  /** The context is empty exactly when there is no log; an empty log prints
      "N/A" for both fields. */
  lemma LogContextEmptyIff(log: Option<ManualLog>)
    ensures LogContext(log) == "" <==> log.None?
    ensures log == Some(EmptyLog) ==> LogContext(log) == ObservationsHead + "N/A" + MineralogyHead + "N/A"
  {
    if log.Some? {
      assert |ObservationsHead| > 0;
    }
  }

  /** The text part: the template with the mode's text, the threshold, the
      guidance, the mode's instruction and the log context filled in. */
  function Prompt(mode: string, sensitivity: int, log: Option<ManualLog>): string
  {
    "Perform a geological analysis of the " + "attached riverine images in " + mode + ". \n"
      + "    ANALYSIS THRESHOLD (" + IntToString(sensitivity) + "%): " + Guidance(sensitivity) + "\n"
      + "    " + InstructionFor(mode) + "\n"
      + "    " + LogContext(log) + "\n"
      + "    Analyze the drainage context, " + "identify rocks/minerals/fossils, and " + "estimate placer potential.\n"
      + "    Strictly follow the output " + "structure provided in your system " + "instructions."
  }

  /** An image as the service receives it. */
  datatype Payload = Payload(base64: string, mimeType: string)

  /** A content part: inline image data or text. */
  datatype Part = InlineData(data: string, mimeType: string) | TextPart(text: string)

  function ImageParts(images: seq<Payload>): (ps: seq<Part>)
    ensures |ps| == |images|
    ensures forall i :: 0 <= i < |images| ==> ps[i] == InlineData(images[i].base64, images[i].mimeType)
  {
    if |images| == 0 then [] else ImageParts(images[..|images| - 1]) + [InlineData(images[|images| - 1].base64, images[|images| - 1].mimeType)]
  }

  /** The request `generateContent` receives. */
  datatype Request = Request(
    model: string,
    parts: seq<Part>,
    systemInstruction: SystemInstruction,
    temperature: real,
    topP: real,
    topK: int)

  /** The request the service assembles: every image in order, then the one
      text part; the fixed model, system instruction, topP and topK. */
  function BuildRequest(images: seq<Payload>, mode: string, sensitivity: int, log: Option<ManualLog>): (r: Request)
    ensures r.model == ModelName && r.systemInstruction == GeologyAdvisor
    ensures r.topP == 0.8 && r.topK == 40
    ensures r.temperature == Temperature(sensitivity)
    ensures |r.parts| == |images| + 1
    ensures forall i :: 0 <= i < |images| ==> r.parts[i] == InlineData(images[i].base64, images[i].mimeType)
    ensures r.parts[|images|] == TextPart(Prompt(mode, sensitivity, log))
  {
    Request(ModelName, ImageParts(images) + [TextPart(Prompt(mode, sensitivity, log))],
      GeologyAdvisor, Temperature(sensitivity), 0.8, 40)
  }

  /** The images read back from the parts before the text part. */
  function PayloadsOf(parts: seq<Part>): (images: seq<Payload>)
    requires forall i :: 0 <= i < |parts| ==> parts[i].InlineData?
    ensures |images| == |parts|
  {
    if |parts| == 0 then []
    else PayloadsOf(parts[..|parts| - 1]) + [Payload(parts[|parts| - 1].data, parts[|parts| - 1].mimeType)]
  }

  /** Reading the payloads back from the image parts gives the images. */
  lemma {:induction false} ImagePartsRoundTrip(images: seq<Payload>)
    ensures PayloadsOf(ImageParts(images)) == images
    decreases |images|
  {
    if |images| != 0 {
      var init := images[..|images| - 1];
      ImagePartsRoundTrip(init);
      assert ImageParts(images)[..|init|] == ImageParts(init);
    }
  }

  /** The parts before the text part give back exactly the images, in order. */
  lemma RequestKeepsImages(images: seq<Payload>, mode: string, sensitivity: int, log: Option<ManualLog>)
    ensures var parts := BuildRequest(images, mode, sensitivity, log).parts;
      && (forall i :: 0 <= i < |images| ==> parts[i].InlineData?)
      && PayloadsOf(parts[..|images|]) == images
  {
    var parts := BuildRequest(images, mode, sensitivity, log).parts;
    assert parts[..|images|] == ImageParts(images);
    ImagePartsRoundTrip(images);
  }

  /** What the client call did: answered, possibly without text, or threw. A
      failure while constructing the client happens outside the service's
      `try` and keeps its own message. */
  datatype Reply = Answered(text: Option<string>) | Threw | ClientFailed(message: string)

  const NoTextResult: string := "Analysis failed to generate " + "text content."
  const EngineFailure: string := "Failed to communicate with " + "the geological " + "AI engine."

  /** `analyzeGeology`'s settled promise for a reply. */
  function AnalyzeGeology(reply: Reply): (r: Result<string>)
    ensures r.Success? <==> reply.Answered?
    ensures r.Success? ==> r.value != ""
    ensures r.Success? && Truthy(reply.text) ==> r.value == reply.text.value
    ensures r.Success? && !Truthy(reply.text) ==> r.value == NoTextResult
    ensures reply.Threw? ==> r == Failure(EngineFailure)
    ensures reply.ClientFailed? ==> r == Failure(reply.message)
  {
    match reply
    case Answered(text) => Success(if Truthy(text) then text.value else NoTextResult)
    case Threw => Failure(EngineFailure)
    case ClientFailed(message) => Failure(message)
  }
}
