/** The text-to-image handler under api/runway: no ratio allow-list, only a
    default and the rewrite of 1080:1080 to 1024:1024. */
module ApiTextToImage {
  import opened JsText
  import opened Relay
  import Polling

  const DefaultRatio: string := "768:1280"

  /** The request fields the handler reads (an absent field is the empty string). */
  datatype Fields = Fields(promptText: string, prompt: string, ratio: string)

  /** The handler. `start` is the provider's answer to the creation request and `answers` the status
      reads. Besides the response it returns the creation request it sent,
      if any, and the number of status reads it made. */
  method Handle(verb: string, apiKey: string, f: Fields, start: Created, answers: seq<StatusRead>)
    returns (resp: Response, image: Option<ImageRequest>, made: nat)
    requires Polling.MaxTries <= |answers|
    ensures verb == "OPTIONS" ==> resp == Preflight
    ensures verb != "OPTIONS" && verb != "POST" ==> resp == NotAllowed
    ensures verb == "POST" && apiKey == "" ==> resp == MissingKey
    ensures !(verb == "POST" && apiKey != "") ==> image.None? && made == 0
    ensures made <= Polling.MaxTries && (image.None? ==> made == 0)
    ensures verb == "POST" && apiKey != "" && Or(f.promptText, f.prompt) == "" ==>
      resp == Response(400, Text("Missing promptText")) && image.None?
    ensures verb == "POST" && apiKey != "" && Or(f.promptText, f.prompt) != "" ==>
      image.Some? && image.value.model == "gen4_image" &&
      image.value.promptText == Or(f.promptText, f.prompt)
    // absent ratio: 768:1280; 1080:1080 becomes 1024:1024; any other text is sent as it is
    ensures image.Some? && f.ratio == "" ==> image.value.ratio == DefaultRatio
    ensures image.Some? && f.ratio == "1080:1080" ==> image.value.ratio == "1024:1024"
    ensures image.Some? && f.ratio != "" && f.ratio != "1080:1080" ==> image.value.ratio == f.ratio
    ensures image.Some? && start.Refused? ==> resp == Response(start.code, Text(start.text)) && made == 0
    ensures image.Some? && start.Created? ==>
      var v := Polling.Outcome(answers, Polling.MaxTries);
      made == Polling.ReadsMade(answers, Polling.MaxTries) &&
      resp == match v
        case Ready(url, status) => Response(200, ImageJson(url, start.id, status))
        case ProviderFailed(status) => Response(500, Text(status))
        case HttpError(code, text) => Response(code, Text(text))
        case TimedOut => Response(504, Text("Timeout waiting for text_to_image"))
  {
    image, made := None, 0;
    if verb == "OPTIONS" {
      return Preflight, image, made;
    }
    if verb != "POST" {
      return NotAllowed, image, made;
    }
    if apiKey == "" {
      return MissingKey, image, made;
    }
    var promptText := Or(Or(f.promptText, f.prompt), "");
    if promptText == "" {
      return Response(400, Text("Missing promptText")), image, made;
    }
    var ratio := Or(f.ratio, DefaultRatio);
    if ratio == "1080:1080" {
      ratio := "1024:1024";
    }
    image := Some(ImageRequest("gen4_image", promptText, ratio));
    if start.Refused? {
      return Response(start.code, Text(start.text)), image, made;
    }
    var v;
    v, made := Polling.Poll(answers, Polling.MaxTries);
    match v
    case Ready(url, status) =>
      resp := Response(200, ImageJson(url, start.id, status));
    case ProviderFailed(status) =>
      resp := Response(500, Text(status));
    case HttpError(code, text) =>
      resp := Response(code, Text(text));
    case TimedOut =>
      resp := Response(504, Text("Timeout waiting for text_to_image"));
  }
}
