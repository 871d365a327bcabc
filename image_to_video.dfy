/** The root image-to-video handler: normalise ratio, model and duration;
    when no image is given, create a text-to-image seed task and poll it for
    its first output; then create the image-to-video task and answer with its id. */
module ImageToVideo {
  import opened JsText
  import opened Relay
  import opened Normalize
  import Polling

  /** The request fields the handler reads (an absent field is the empty
      string; `duration` is `None` when it is absent or not a number, and
      `Some` of the number otherwise, zero and negative numbers included). */
  datatype Fields = Fields(
    promptText: string, prompt: string, ratio: string, aspect: string,
    model: string, duration: Option<int>, promptImage: string)

  /** `body.promptText || body.prompt || ''`. */
  function PromptOf(f: Fields): (p: string)
    ensures f.promptText != "" ==> p == f.promptText
    ensures f.promptText == "" ==> p == f.prompt
    ensures p == "" <==> f.promptText == "" && f.prompt == ""
  {
    Or(f.promptText, f.prompt)
  }

  /** The ratio the handler sends: `inferRatio(body.ratio || body.aspect || '')`. */
  function RatioOf(f: Fields): string {
    InferRatio(Or(f.ratio, f.aspect))
  }

  predicate Proceeds(verb: string, apiKey: string) {
    verb == "POST" && apiKey != ""
  }

  /** The handler. `seedStart` answers the seed-image creation, `answers` the
      status reads of the seed task, `videoStart` the video-task creation.
      Besides the response it returns the seed request and the video request
      it sent (if any) and the number of status reads it made. */
  method Handle(verb: string, apiKey: string, f: Fields,
                seedStart: Created, answers: seq<StatusRead>, videoStart: Created)
    returns (resp: Response, seed: Option<ImageRequest>, made: nat, video: Option<VideoRequest>)
    requires Polling.MaxTries <= |answers|
    ensures verb == "OPTIONS" ==> resp == Preflight
    ensures verb != "OPTIONS" && verb != "POST" ==> resp == NotAllowed
    ensures verb == "POST" && apiKey == "" ==> resp == MissingKey
    ensures !Proceeds(verb, apiKey) ==> seed.None? && video.None? && made == 0
    ensures made <= Polling.MaxTries && (seed.None? ==> made == 0)
    // every video request carries an allowed ratio, the one model and a duration in (0, 10]
    ensures video.Some? ==>
      video.value.ratio in Allowed && video.value.ratio == RatioOf(f) &&
      video.value.model == "gen4_turbo" &&
      0 < video.value.duration <= MaxDuration && video.value.duration == ClampDuration(f.duration) &&
      video.value.promptText == PromptOf(f)
    // no image and no prompt: 400 before any external call
    ensures Proceeds(verb, apiKey) && f.promptImage == "" && PromptOf(f) == "" ==>
      resp == Response(400, Text("Provide promptText or promptImage")) && seed.None? && video.None?
    // a given image is forwarded as it is, without a seed task
    ensures Proceeds(verb, apiKey) && f.promptImage != "" ==>
      seed.None? && made == 0 && video.Some? && video.value.promptImage == f.promptImage
    // otherwise a seed task is created from the prompt, with the same ratio
    ensures Proceeds(verb, apiKey) && f.promptImage == "" && PromptOf(f) != "" ==>
      seed == Some(ImageRequest("gen4_image", PromptOf(f), RatioOf(f)))
    ensures seed.Some? && seedStart.Refused? ==>
      resp == Response(seedStart.code, Text(seedStart.text)) && made == 0 && video.None?
    // how the seed poll ends decides what happens next
    ensures seed.Some? && seedStart.Created? ==>
      var v := Polling.Outcome(answers, Polling.MaxTries);
      made == Polling.ReadsMade(answers, Polling.MaxTries) &&
      (v.Ready? && v.url != "" ==> video.Some? && video.value.promptImage == v.url) &&
      (v.ProviderFailed? ==> resp == Response(500, Text("text_to_image failed")) && video.None?) &&
      (v.HttpError? ==> resp == Response(v.code, Text(v.text)) && video.None?) &&
      (v.TimedOut? || (v.Ready? && v.url == "") ==>
        resp == Response(504, Text("Timeout waiting for seed image")) && video.None?)
    // the video task's creation answer is relayed, or its id returned
    ensures video.Some? ==>
      resp == (match videoStart
               case Created(id) => Response(200, TaskIdJson(id))
               case Refused(code, text) => Response(code, Text(text)))
  {
    seed, made, video := None, 0, None;
    if verb == "OPTIONS" {
      return Preflight, seed, made, video;
    }
    if verb != "POST" {
      return NotAllowed, seed, made, video;
    }
    if apiKey == "" {
      return MissingKey, seed, made, video;
    }
    var promptText := Or(Or(f.promptText, f.prompt), "");
    var ratio := InferRatio(Or(Or(f.ratio, f.aspect), ""));
    var model := NormalizeModel(f.model);
    var duration := ClampDuration(f.duration);

    var promptImage := f.promptImage;
    if promptImage == "" {
      if promptText == "" {
        return Response(400, Text("Provide promptText or promptImage")), seed, made, video;
      }
      seed := Some(ImageRequest("gen4_image", promptText, ratio));
      if seedStart.Refused? {
        return Response(seedStart.code, Text(seedStart.text)), seed, made, video;
      }
      var v;
      v, made := Polling.Poll(answers, Polling.MaxTries);
      match v {
        case Ready(url, _) =>
          promptImage := url;
        case ProviderFailed(_) =>
          return Response(500, Text("text_to_image failed")), seed, made, video;
        case HttpError(code, text) =>
          return Response(code, Text(text)), seed, made, video;
        case TimedOut =>
      }
      if promptImage == "" {
        return Response(504, Text("Timeout waiting for seed image")), seed, made, video;
      }
    }

    video := Some(VideoRequest(model, promptImage, promptText, ratio, duration));
    match videoStart
    case Refused(code, text) =>
      resp := Response(code, Text(text));
    case Created(id) =>
      resp := Response(200, TaskIdJson(id));
  }
}
