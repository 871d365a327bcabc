/** The browser form controller (app.js): the ad script built from the form,
    the video request body, and the client-side poll of a generation task's status with
    the success-or-failure decision that follows it. DOM access, speech,
    uploads and timers are left out; the page's one piece of state, the URL
    of the last uploaded image, is a field of `VideoPage`. */
module App {
  import opened JsText
  import opened Relay

  const DefaultProduct: string := "Amazing product for your day."
  const DefaultCta: string := "Shop now!"
  /** The status line shown with a finished video. */
  const ReadyLine: string := "Video ready \U{2713}"

  function ProductLine(product: string): string {
    if Trim(product) != "" then Trim(product) else DefaultProduct
  }

  function AudienceLine(audience: string): string {
    if Trim(audience) != "" then "Made for " + Trim(audience) + "." else ""
  }

  /** `(el.cta?.value || 'Shop now!').trim()`: the default applies to an empty
      field only; a field of white space trims to nothing. */
  function CtaLine(cta: string): string {
    Trim(Or(cta, DefaultCta))
  }

  /** The five candidate lines, before `filter(Boolean)`. */
  function Candidates(product: string, audience: string, visual: string, goal: string, cta: string): seq<string> {
    [ProductLine(product), AudienceLine(audience), Trim(visual), Trim(goal), CtaLine(cta)]
  }

  /** A one-element list for a kept line, the empty list for a dropped one. */
  function Keep(line: string): seq<string> {
    if line == "" then [] else [line]
  }

  /** 1 for a line that is kept, 0 for one that `filter(Boolean)` drops. */
  function Kept(line: string): nat {
    |Keep(line)|
  }

  /** The lines of the script, after `filter(Boolean)`. The tone is read by
      the form code but takes no part. */
  function ScriptLines(product: string, audience: string, tone: string,
                       visual: string, goal: string, cta: string): (lines: seq<string>)
    ensures lines == [ProductLine(product)] + Keep(AudienceLine(audience)) + Keep(Trim(visual))
                     + Keep(Trim(goal)) + Keep(CtaLine(cta))
  {
    var c := Candidates(product, audience, visual, goal, cta);
    FilterKeepsOrder(c);
    NonEmpty(c)
  }

  /** `filter(Boolean)` over five lines is the concatenation of the kept ones. */
  lemma FilterKeepsOrder(c: seq<string>)
    requires |c| == 5
    ensures NonEmpty(c) == Keep(c[0]) + Keep(c[1]) + Keep(c[2]) + Keep(c[3]) + Keep(c[4])
  {
    assert c == [c[0]] + [c[1]] + [c[2]] + [c[3]] + [c[4]];
    NonEmptyAppend([c[0]] + [c[1]] + [c[2]] + [c[3]], [c[4]]);
    NonEmptyAppend([c[0]] + [c[1]] + [c[2]], [c[3]]);
    NonEmptyAppend([c[0]] + [c[1]], [c[2]]);
    NonEmptyAppend([c[0]], [c[1]]);
    forall x | true ensures NonEmpty([x]) == Keep(x) {
      NonEmptyOne(x);
    }
  }

  /** A leading line followed by the kept ones among four candidates. */
  lemma KeptLines(p: string, a: string, b: string, c: string, d: string)
    requires p != ""
    ensures var lines := [p] + Keep(a) + Keep(b) + Keep(c) + Keep(d);
      && |lines| == 1 + Kept(a) + Kept(b) + Kept(c) + Kept(d)
      && lines[0] == p
      && (forall i :: 0 <= i < |lines| ==> lines[i] != "")
      && (a != "" ==> lines[1] == a)
      && (d != "" ==> lines[|lines| - 1] == d)
  {
  }

  /** The trimmed default call to action is the default itself. */
  lemma DefaultCtaLine()
    ensures CtaLine("") == DefaultCta
  {
    assert Or("", DefaultCta) == DefaultCta;
    assert !IsSpace(DefaultCta[0]) && !IsSpace(DefaultCta[|DefaultCta| - 1]);
  }

  /** The script's lines: the product line (never empty) first, then one line
      per non-empty field among audience, visual notes, goal and CTA, in that
      order; no line is empty. */
  lemma ScriptLinesShape(product: string, audience: string, tone: string,
                         visual: string, goal: string, cta: string)
    ensures var lines := ScriptLines(product, audience, tone, visual, goal, cta);
      && 1 <= |lines| <= 5
      && lines[0] == ProductLine(product) && lines[0] != ""
      && (forall i :: 0 <= i < |lines| ==> lines[i] != "")
      && |lines| == 1 + Kept(Trim(audience)) + Kept(Trim(visual)) + Kept(Trim(goal)) + Kept(CtaLine(cta))
      && (Trim(audience) != "" ==> lines[1] == "Made for " + Trim(audience) + ".")
      && (CtaLine(cta) != "" ==> lines[|lines| - 1] == CtaLine(cta))
      && (cta == "" ==> lines[|lines| - 1] == DefaultCta)
  {
    var p, a := ProductLine(product), AudienceLine(audience);
    assert p != "";
    assert Kept(a) == Kept(Trim(audience));
    KeptLines(p, a, Trim(visual), Trim(goal), CtaLine(cta));
    if cta == "" {
      DefaultCtaLine();
    }
  }

  /** `buildScript`: the kept lines joined with newlines. */
  function BuildScript(product: string, audience: string, tone: string,
                       visual: string, goal: string, cta: string): (script: string)
    ensures script != ""
    ensures StartsWith(script, ProductLine(product))
    ensures CtaLine(cta) != "" ==> EndsWith(script, CtaLine(cta))
    ensures cta == "" ==> EndsWith(script, DefaultCta)
  {
    var lines := ScriptLines(product, audience, tone, visual, goal, cta);
    ScriptLinesShape(product, audience, tone, visual, goal, cta);
    JoinShape(lines, "\n");
    Join(lines, "\n")
  }

  /** The tone field has no effect on the script. */
  lemma ToneIgnored(product: string, audience: string, tone1: string, tone2: string,
                    visual: string, goal: string, cta: string)
    ensures BuildScript(product, audience, tone1, visual, goal, cta)
         == BuildScript(product, audience, tone2, visual, goal, cta)
  {
  }

  /** The script has one line per kept field, so its length is the lines'
      lengths plus one newline between neighbours. */
  lemma {:induction false} ScriptLength(product: string, audience: string, tone: string,
                                         visual: string, goal: string, cta: string)
    ensures var lines := ScriptLines(product, audience, tone, visual, goal, cta);
      |BuildScript(product, audience, tone, visual, goal, cta)| == SumLengths(lines) + |lines| - 1
  {
    var lines := ScriptLines(product, audience, tone, visual, goal, cta);
    JoinShape(lines, "\n");
  }

  /** The form fields the video button reads (an absent element reads as the empty string). */
  datatype Form = Form(
    product: string, audience: string, goal: string, tone: string, visual: string, cta: string,
    script: string, ratio: string, duration: string, model: string, refimg: string)

  /** The JSON body posted to start a video. The duration is sent as text. */
  datatype VideoBody = VideoBody(
    promptText: string, ratio: string, duration: string, model: string, promptImage: Option<string>)

  /** One answer of the status endpoint as the page reads it. */
  datatype TaskView = TaskView(status: string, output: seq<string>)

  /** The page's ceiling on status reads. */
  const ClientMaxTries: nat := 60

  /** A read after which the page stops polling. SUCCEEDED with an empty
      output is not one of them. */
  predicate Stops(v: TaskView) {
    (v.status == "SUCCEEDED" && |v.output| > 0) || v.status == "FAILED" || v.status == "CANCELED"
  }

  /** Index of the first stopping read in `views[i..limit]`, or `limit`. */
  function FirstStop(views: seq<TaskView>, i: nat, limit: nat): (k: nat)
    requires i <= limit <= |views|
    ensures i <= k <= limit
    ensures forall j :: i <= j < k ==> !Stops(views[j])
    ensures k < limit ==> Stops(views[k])
    decreases limit - i
  {
    if i == limit then limit
    else if Stops(views[i]) then i
    else FirstStop(views, i + 1, limit)
  }

  /** How many reads the page makes. */
  function ClientReads(views: seq<TaskView>): (n: nat)
    requires ClientMaxTries <= |views|
    ensures 1 <= n <= ClientMaxTries
  {
    var k := FirstStop(views, 0, ClientMaxTries);
    if k < ClientMaxTries then k + 1 else ClientMaxTries
  }

  /** What the page ends with: the video's URL, or the failure with the last status. */
  datatype ClientOutcome = Shown(url: string) | VideoFailed(status: string)

  function OutcomeOf(views: seq<TaskView>): ClientOutcome
    requires ClientMaxTries <= |views|
  {
    var last := views[ClientReads(views) - 1];
    if last.status == "SUCCEEDED" && |last.output| > 0 then Shown(last.output[0]) else VideoFailed(last.status)
  }

  lemma FirstStopIs(views: seq<TaskView>, limit: nat, k: nat)
    requires k < limit <= |views|
    requires Stops(views[k])
    requires forall j :: 0 <= j < k ==> !Stops(views[j])
    ensures FirstStop(views, 0, limit) == k
  {
  }

  /** The poll loop: at most 60 reads, stopping at the first read that
      succeeded with an output or failed; it leaves the last status and output read. */
  method PollTask(views: seq<TaskView>) returns (status: string, output: seq<string>, made: nat)
    requires ClientMaxTries <= |views|
    ensures made == ClientReads(views)
    ensures status == views[made - 1].status && output == views[made - 1].output
  {
    status, output := "PENDING", [];
    made := 0;
    for i := 0 to ClientMaxTries
      invariant made == i
      invariant forall j :: 0 <= j < i ==> !Stops(views[j])
      invariant i > 0 ==> status == views[i - 1].status && output == views[i - 1].output
    {
      var pj := views[i];
      status := pj.status;
      output := pj.output;
      made := i + 1;
      if status == "SUCCEEDED" && |output| > 0 {
        FirstStopIs(views, ClientMaxTries, i);
        break;
      }
      if status == "FAILED" || status == "CANCELED" {
        FirstStopIs(views, ClientMaxTries, i);
        break;
      }
    }
  }

  /** The page shows a video exactly when some read within the ceiling
      succeeded with an output before any read failed, and it shows that
      read's first output. */
  lemma {:induction false} ShownExactlyOnSuccess(views: seq<TaskView>)
    requires ClientMaxTries <= |views|
    ensures OutcomeOf(views).Shown? <==>
      exists k :: 0 <= k < ClientMaxTries && views[k].status == "SUCCEEDED" && |views[k].output| > 0 &&
        forall j :: 0 <= j < k ==> !Stops(views[j])
    ensures OutcomeOf(views).Shown? ==>
      var k := ClientReads(views) - 1;
      views[k].status == "SUCCEEDED" && OutcomeOf(views).url == views[k].output[0]
  {
    var f := FirstStop(views, 0, ClientMaxTries);
    if exists k :: 0 <= k < ClientMaxTries && views[k].status == "SUCCEEDED" && |views[k].output| > 0 &&
        forall j :: 0 <= j < k ==> !Stops(views[j]) {
      var k :| 0 <= k < ClientMaxTries && views[k].status == "SUCCEEDED" && |views[k].output| > 0 &&
        forall j :: 0 <= j < k ==> !Stops(views[j]);
      FirstStopIs(views, ClientMaxTries, k);
    }
    if OutcomeOf(views).Shown? {
      var k := ClientReads(views) - 1;
      assert forall j :: 0 <= j < k ==> !Stops(views[j]);
    }
  }

  /** A read that stops the loop on failure ends it there with that status. */
  lemma FailureStopsAtOnce(views: seq<TaskView>, k: nat)
    requires k < ClientMaxTries <= |views|
    requires views[k].status == "FAILED" || views[k].status == "CANCELED"
    requires forall j :: 0 <= j < k ==> !Stops(views[j])
    ensures ClientReads(views) == k + 1 && OutcomeOf(views) == VideoFailed(views[k].status)
  {
    FirstStopIs(views, ClientMaxTries, k);
  }

  /** The prompt the page sends: the script field, or a script built from
      the other fields when it is empty. */
  function PromptFor(form: Form): (p: string)
    ensures p != ""
    ensures form.script != "" ==> p == form.script
    ensures form.script == "" ==>
      p == BuildScript(form.product, form.audience, form.tone, form.visual, form.goal, form.cta)
  {
    Or(form.script, BuildScript(form.product, form.audience, form.tone, form.visual, form.goal, form.cta))
  }

  /** The image the page sends: the last uploaded URL in preference to the
      trimmed URL field; none when both are empty. */
  function ImageFor(uploaded: string, refimg: string): (img: Option<string>)
    ensures uploaded != "" ==> img == Some(uploaded)
    ensures uploaded == "" && refimg != "" ==> img == Some(Trim(refimg))
    ensures img.None? <==> uploaded == "" && refimg == ""
  {
    if uploaded != "" then Some(uploaded)
    else if refimg != "" then Some(Trim(refimg))
    else None
  }

  /** The browser page: its state is the URL of the last uploaded image. */
  class VideoPage {
    var uploadedImageUrl: string

    constructor ()
      ensures uploadedImageUrl == ""
    {
      uploadedImageUrl := "";
    }

    /** An upload finished with the URL the upload endpoint returned. */
    method UploadDone(url: string)
      modifies this
      ensures uploadedImageUrl == url
    {
      uploadedImageUrl := url;
    }

    /** The video request body, built field by field: the script text (or a
        freshly built script), ratio, duration and model with their defaults,
        then the uploaded image in preference to the trimmed URL field. */
    method BuildBody(form: Form) returns (body: VideoBody)
      ensures body.promptText == PromptFor(form)
      ensures body.ratio == (if form.ratio == "" then "720:1280" else form.ratio)
      ensures body.duration == (if form.duration == "" then "5" else form.duration)
      ensures body.model == (if form.model == "" then "gen4_turbo" else form.model)
      ensures body.promptImage == ImageFor(uploadedImageUrl, form.refimg)
    {
      body := VideoBody(PromptFor(form), Or(form.ratio, "720:1280"), Or(form.duration, "5"),
                        Or(form.model, "gen4_turbo"), None);
      if uploadedImageUrl != "" {
        body := body.(promptImage := Some(uploadedImageUrl));
      } else if form.refimg != "" {
        body := body.(promptImage := Some(Trim(form.refimg)));
      }
      assert body.promptImage == ImageFor(uploadedImageUrl, form.refimg);
    }

    /** The video button: build and post the body, then poll and decide. A
        refused start throws, and the page reports the provider's text.
        Returns the body sent, the final status line, the URL shown (if any)
        and the number of status reads. */
    method GenerateVideo(form: Form, start: Created, views: seq<TaskView>)
      returns (body: VideoBody, statusLine: string, shown: Option<string>, made: nat)
      requires ClientMaxTries <= |views|
      ensures body.promptText == PromptFor(form) && body.promptText != ""
      ensures body.ratio == (if form.ratio == "" then "720:1280" else form.ratio)
      ensures body.duration == (if form.duration == "" then "5" else form.duration)
      ensures body.model == (if form.model == "" then "gen4_turbo" else form.model)
      ensures body.promptImage == ImageFor(uploadedImageUrl, form.refimg)
      ensures start.Refused? ==> statusLine == "Video failed: " + start.text && shown.None? && made == 0
      ensures start.Created? ==> made == ClientReads(views)
      ensures start.Created? && OutcomeOf(views).Shown? ==>
        shown == Some(OutcomeOf(views).url) && statusLine == ReadyLine
      ensures start.Created? && OutcomeOf(views).VideoFailed? ==>
        shown.None? && statusLine == "Video failed: " + OutcomeOf(views).status
    {
      body := BuildBody(form);
      if start.Refused? {
        statusLine, shown, made := "Video failed: " + start.text, None, 0;
      } else {
        statusLine, shown, made := AwaitVideo(views);
      }
    }
  }

  /** Once the video task exists: poll, then show the video or report the failure. */
  method AwaitVideo(views: seq<TaskView>) returns (statusLine: string, shown: Option<string>, made: nat)
    requires ClientMaxTries <= |views|
    ensures made == ClientReads(views)
    ensures OutcomeOf(views).Shown? ==> shown == Some(OutcomeOf(views).url) && statusLine == ReadyLine
    ensures OutcomeOf(views).VideoFailed? ==>
      shown.None? && statusLine == "Video failed: " + OutcomeOf(views).status
  {
    var status, output;
    status, output, made := PollTask(views);
    shown := None;
    if status == "SUCCEEDED" && |output| > 0 {
      shown := Some(output[0]);
      statusLine := ReadyLine;
    } else {
      statusLine := "Video failed: " + status;
    }
  }
}
