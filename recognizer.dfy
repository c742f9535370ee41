/** The multimodal recognizer both checkers call once per page image. The call and
    json.loads of its text are outside the model; what the checkers see of them is a
    Reply, taken as an input. */
module Recognizer {
  import opened PyText

  /** How one recognizer call ends:
      - ApiError: the response status is not 200, and RuntimeError is raised;
      - NotJson: the text is not JSON (json.JSONDecodeError);
      - JsonObject: the text is a JSON object, with scalar values;
      - JsonOther: the text is JSON but not an object (array, string, number, …). */
  datatype Reply = ApiError | NotJson | JsonObject(data: map<string, Value>) | JsonOther

  /** What a page analysis hands back to its page loop: a dict, or an exception. */
  datatype Analysis = Raised | Analysed(data: map<string, Value>)
}
