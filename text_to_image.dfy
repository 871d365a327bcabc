/** The root text-to-image handler: validate the prompt, infer the ratio,
    create a text-to-image task and poll it until it yields an image URL. */
module TextToImage {
  import opened JsText
  import opened Relay
  import opened Normalize
  import Polling

  /** The request fields the handler reads (an absent field is the empty string). */
  datatype Fields = Fields(promptText: string, prompt: string, ratio: string, aspect: string)

  /** `inferRatio` of this file is the one of image_to_video.js; its label
      priority, restated over this handler's ratio fields: a portrait label
      wins over everything, a landscape label over square labels and pairs. */
  lemma RatioPriority(f: Fields, before: string, word: string, after: string)
    requires Or(f.ratio, f.aspect) == before + word + after
    ensures word in {"9:16", "reel", "story", "portrait"} ==>
      InferRatio(Or(f.ratio, f.aspect)) == Vertical
    ensures word in {"16:9", "landscape", "youtube", "tiktok"} &&
            !HasPortraitLabel(ToLower(before + word + after)) ==>
      InferRatio(Or(f.ratio, f.aspect)) == Horizontal
    ensures word in {"1:1", "square"} && !HasPortraitLabel(ToLower(before + word + after)) &&
            !HasLandscapeLabel(ToLower(before + word + after)) ==>
      InferRatio(Or(f.ratio, f.aspect)) == Square
  {
    if word in {"9:16", "reel", "story", "portrait"} {
      PortraitWins(before, word, after);
    }
    if word in {"16:9", "landscape", "youtube", "tiktok"} && !HasPortraitLabel(ToLower(before + word + after)) {
      LandscapeBeatsSquare(before, word, after);
    }
    if word in {"1:1", "square"} && !HasPortraitLabel(ToLower(before + word + after)) &&
       !HasLandscapeLabel(ToLower(before + word + after)) {
      SquareBeatsPair(before, word, after);
    }
  }

  /** The handler. `start` is the provider's answer to the creation request and `answers` the status
      reads. Besides the response it returns the creation request it sent,
      if any, and the number of status reads it made. */
  method Handle(verb: string, apiKey: string, f: Fields, start: Created, answers: seq<StatusRead>)
    returns (resp: Response, image: Option<ImageRequest>, made: nat)
    requires Polling.MaxTries <= |answers|
    ensures verb == "OPTIONS" ==> resp == Preflight
    ensures verb != "OPTIONS" && verb != "POST" ==> resp == NotAllowed
    ensures verb == "POST" && apiKey == "" ==> resp == MissingKey
    ensures !(verb == "POST" && apiKey != "") ==> image.None? && made == 0
    ensures made <= Polling.MaxTries && (image.None? ==> made == 0)
    // an empty prompt (after the `prompt` fallback) is refused before any call
    ensures verb == "POST" && apiKey != "" && Or(f.promptText, f.prompt) == "" ==>
      resp == Response(400, Text("Missing promptText")) && image.None?
    ensures verb == "POST" && apiKey != "" && Or(f.promptText, f.prompt) != "" ==>
      image == Some(ImageRequest("gen4_image", Or(f.promptText, f.prompt), InferRatio(Or(f.ratio, f.aspect))))
    ensures image.Some? ==> image.value.ratio in Allowed
    ensures image.Some? && start.Refused? ==> resp == Response(start.code, Text(start.text)) && made == 0
    // the poll's ending is the response
    ensures image.Some? && start.Created? ==>
      var v := Polling.Outcome(answers, Polling.MaxTries);
      made == Polling.ReadsMade(answers, Polling.MaxTries) &&
      resp == match v
        case Ready(url, status) => Response(200, ImageJson(url, start.id, status))
        case ProviderFailed(status) => Response(500, Text(status))
        case HttpError(code, text) => Response(code, Text(text))
        case TimedOut => Response(504, Text("Timeout waiting for text_to_image"))
  {
    image, made := None, 0;
    if verb == "OPTIONS" {
      return Preflight, image, made;
    }
    if verb != "POST" {
      return NotAllowed, image, made;
    }
    if apiKey == "" {
      return MissingKey, image, made;
    }
    var promptText := Or(Or(f.promptText, f.prompt), "");
    if promptText == "" {
      return Response(400, Text("Missing promptText")), image, made;
    }
    var ratio := InferRatio(Or(Or(f.ratio, f.aspect), ""));
    image := Some(ImageRequest("gen4_image", promptText, ratio));
    if start.Refused? {
      return Response(start.code, Text(start.text)), image, made;
    }
    var v;
    v, made := Polling.Poll(answers, Polling.MaxTries);
    match v
    case Ready(url, status) =>
      resp := Response(200, ImageJson(url, start.id, status));
    case ProviderFailed(status) =>
      resp := Response(500, Text(status));
    case HttpError(code, text) =>
      resp := Response(code, Text(text));
    case TimedOut =>
      resp := Response(504, Text("Timeout waiting for text_to_image"));
  }
}
