/** What the handlers exchange with their callers and with the provider:
    the responses a handler sends, the requests it makes, and the answers of
    the provider's task-creation and task-status endpoints. The HTTP calls
    themselves are not modelled: each answer is an input of the handler. */
module Relay {
  datatype Option<T> = None | Some(value: T)

  /** The body of a handler's response. */
  datatype Body =
    | NoBody                                          // res.end()
    | Text(text: string)                              // res.send(text)
    | TaskIdJson(taskId: string)                      // res.json({ taskId })
    | ImageJson(imageUrl: string, taskId: string, status: string)

  datatype Response = Response(code: int, body: Body)

  /** The preflight answer and the answer to any method other than OPTIONS or POST. */
  const Preflight: Response := Response(200, NoBody)
  const NotAllowed: Response := Response(405, Text("Method not allowed"))
  const MissingKey: Response := Response(500, Text("Missing RUNWAY_API_KEY"))

  /** The answer of a task-creation POST: the new task's id when `ok`,
      otherwise the provider's status code and response text. */
  datatype Created = Created(id: string) | Refused(code: int, text: string)

  /** One read of the provider's task-status endpoint: whether the HTTP answer
      was ok, its status code and text (used when it was not), and the generation task's
      `status` and `output` (an absent output is the empty sequence). */
  datatype StatusRead = StatusRead(ok: bool, code: int, text: string, status: string, output: seq<string>)

  /** The body of a text-to-image task creation. */
  datatype ImageRequest = ImageRequest(model: string, promptText: string, ratio: string)

  /** The body of an image-to-video task creation. */
  datatype VideoRequest =
    VideoRequest(model: string, promptImage: string, promptText: string, ratio: string, duration: int)
}
