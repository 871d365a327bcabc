/** The image-to-video handler under api/runway: its own four-token ratio
    allow-list, a duration that passes through when it is a number, no
    `prompt` fallback, and a seed ratio remapped to what text-to-image accepts. */
module ApiImageToVideo {
  import opened JsText
  import opened Relay
  import Polling

  /** The four ratio tokens this handler sends. */
  const ApiRatios: set<string> := {"768:1280", "1280:720", "1280:768", "1024:1024"}
  const DefaultRatio: string := "768:1280"

  /** The request fields the handler reads (an absent field is the empty
      string; `duration` is `Some` exactly when the field is a number). */
  datatype Fields = Fields(
    promptImage: string, promptText: string, ratio: string, model: string, duration: Option<int>)

  /** The handler. `seedStart` answers the seed-image creation, `answers` the
      status reads of the seed task, `videoStart` the video-task creation.
      Besides the response it returns the seed request and the video request
      it sent (if any) and the number of status reads it made. */
  method Handle(verb: string, apiKey: string, f: Fields,
                seedStart: Created, answers: seq<StatusRead>, videoStart: Created)
    returns (resp: Response, seed: Option<ImageRequest>, made: nat, video: Option<VideoRequest>)
    requires Polling.MaxTries <= |answers|
    ensures verb == "OPTIONS" ==> resp == Preflight
    ensures verb != "OPTIONS" && verb != "POST" ==> resp == NotAllowed
    // the missing key is thrown and caught: 500 with the error's message
    ensures verb == "POST" && apiKey == "" ==> resp == MissingKey
    ensures !(verb == "POST" && apiKey != "") ==> seed.None? && video.None? && made == 0
    ensures made <= Polling.MaxTries && (seed.None? ==> made == 0)
    // the final ratio is allowed: a listed one is kept, anything else is 768:1280
    ensures video.Some? ==>
      video.value.ratio in ApiRatios &&
      video.value.ratio == (if f.ratio in ApiRatios then f.ratio else DefaultRatio)
    // every model name becomes gen4_turbo; a numeric duration is sent unchanged, else 5
    ensures video.Some? ==>
      video.value.model == "gen4_turbo" &&
      video.value.duration == (if f.duration.Some? then f.duration.value else 5) &&
      video.value.promptText == f.promptText
    // promptText has no `prompt` fallback: both empty is a 400 before any call
    ensures verb == "POST" && apiKey != "" && f.promptImage == "" && f.promptText == "" ==>
      resp == Response(400, Text("Provide promptImage or promptText")) && seed.None? && video.None?
    // a given image is forwarded unchanged and no seed task is made
    ensures verb == "POST" && apiKey != "" && f.promptImage != "" ==>
      seed.None? && made == 0 && video.Some? && video.value.promptImage == f.promptImage
    // the seed task keeps 1280:720 and 1024:1024 and asks for 768:1280 otherwise
    ensures verb == "POST" && apiKey != "" && f.promptImage == "" && f.promptText != "" ==>
      seed.Some? && seed.value.model == "gen4_image" && seed.value.promptText == f.promptText &&
      seed.value.ratio == (if f.ratio == "1280:720" || f.ratio == "1024:1024" then f.ratio else DefaultRatio)
    ensures seed.Some? ==> seed.value.ratio in {"1280:720", "1024:1024", "768:1280"}
    ensures seed.Some? && seedStart.Refused? ==>
      resp == Response(seedStart.code, Text(seedStart.text)) && made == 0 && video.None?
    // how the seed poll ends decides what happens next
    ensures seed.Some? && seedStart.Created? ==>
      var v := Polling.Outcome(answers, Polling.MaxTries);
      made == Polling.ReadsMade(answers, Polling.MaxTries) &&
      (v.Ready? && v.url != "" ==> video.Some? && video.value.promptImage == v.url) &&
      (v.ProviderFailed? ==> resp == Response(500, Text("text_to_image failed")) && video.None?) &&
      (v.HttpError? ==> resp == Response(v.code, Text(v.text)) && video.None?) &&
      (v.TimedOut? || (v.Ready? && v.url == "") ==>
        resp == Response(504, Text("Timeout waiting for seed image")) && video.None?)
    ensures video.Some? ==>
      resp == (match videoStart
               case Created(id) => Response(200, TaskIdJson(id))
               case Refused(code, text) => Response(code, Text(text)))
  {
    seed, made, video := None, 0, None;
    if verb == "OPTIONS" {
      return Preflight, seed, made, video;
    }
    if verb != "POST" {
      return NotAllowed, seed, made, video;
    }
    if apiKey == "" {
      return MissingKey, seed, made, video;
    }
    var promptImage := f.promptImage;
    var promptText := Or(f.promptText, "");
    var ratio := Or(f.ratio, DefaultRatio);
    if ratio !in ApiRatios {
      ratio := DefaultRatio;
    }

    var rawModel := ToLower(f.model);
    var model := "gen4_turbo";
    if Contains(rawModel, "gen4") {
      model := "gen4_turbo";
    }
    if Contains(rawModel, "gen3") {
      model := "gen4_turbo";
    }

    var duration := if f.duration.Some? then f.duration.value else 5;

    if promptImage == "" && promptText == "" {
      return Response(400, Text("Provide promptImage or promptText")), seed, made, video;
    }

    var image := promptImage;
    if image == "" {
      var seedRatio := if ratio == "1280:720" then "1280:720"
                       else if ratio == "1024:1024" then "1024:1024"
                       else DefaultRatio;
      seed := Some(ImageRequest("gen4_image", promptText, seedRatio));
      if seedStart.Refused? {
        return Response(seedStart.code, Text(seedStart.text)), seed, made, video;
      }
      var v;
      v, made := Polling.Poll(answers, Polling.MaxTries);
      match v {
        case Ready(url, _) =>
          image := url;
        case ProviderFailed(_) =>
          return Response(500, Text("text_to_image failed")), seed, made, video;
        case HttpError(code, text) =>
          return Response(code, Text(text)), seed, made, video;
        case TimedOut =>
      }
      if image == "" {
        return Response(504, Text("Timeout waiting for seed image")), seed, made, video;
      }
    }

    video := Some(VideoRequest(model, image, promptText, ratio, duration));
    match videoStart
    case Refused(code, text) =>
      resp := Response(code, Text(text));
    case Created(id) =>
      resp := Response(200, TaskIdJson(id));
  }
}
