/**
 * Request assembly of `query_single_turn`: the user turn's content blocks,
 * the conversation with the history turns in front, and the payload sent to
 * the chat-completion endpoint.
 */
module Envelope {
  import opened Wrappers

  datatype Role = System | User | Assistant

  /** A content block: `{"type": "text", ...}` or `{"type": "image_url", "image_url": {url, detail}}`. */
  datatype Block = Text(text: string) | ImageUrl(url: string, detail: string)

  datatype Turn = Turn(role: Role, content: seq<Block>)

  /** The request body `{model, messages, temperature, max_tokens}`. */
  datatype Payload = Payload(model: string, messages: seq<Turn>, temperature: real, maxTokens: int)

  /** The outcome of inlining images: the value, or the first path whose file is absent (`encode_image` exits there). */
  datatype Built<T> = Built(value: T) | MissingImage(path: string)

  const DataUrlPrefix := "data:image/jpeg;base64,"
  const ImageDetail := "high"

  function ImageBlock(encoded: string): Block {
    ImageUrl(DataUrlPrefix + encoded, ImageDetail)
  }

  /** One image block per path, in the order of `paths`. */
  function ImageBlocks(paths: seq<string>, encode: string -> string): seq<Block>
    decreases |paths|
  {
    if paths == [] then []
    else ImageBlocks(paths[..|paths| - 1], encode) + [ImageBlock(encode(paths[|paths| - 1]))]
  }

  lemma {:induction false} ImageBlocksAt(paths: seq<string>, encode: string -> string)
    ensures |ImageBlocks(paths, encode)| == |paths|
    ensures forall i :: 0 <= i < |paths| ==> ImageBlocks(paths, encode)[i] == ImageBlock(encode(paths[i]))
    decreases |paths|
  {
    if paths != [] {
      ImageBlocksAt(paths[..|paths| - 1], encode);
    }
  }

  /** The user turn's content: the question text, then one image block per path, in order. */
  function Content(question: string, paths: seq<string>, encode: string -> string): (r: seq<Block>)
    ensures |r| == 1 + |paths| && r[0] == Text(question)
    ensures forall i :: 0 <= i < |paths| ==> r[i + 1] == ImageBlock(encode(paths[i]))
  {
    ImageBlocksAt(paths, encode);
    [Text(question)] + ImageBlocks(paths, encode)
  }

  /** Index of the first path whose file does not exist, if any. */
  function FirstMissing(paths: seq<string>, onDisk: string -> bool): (r: Option<nat>)
    ensures r.Some? ==> r.value < |paths| && !onDisk(paths[r.value])
    ensures r.Some? ==> forall j :: 0 <= j < r.value ==> onDisk(paths[j])
    ensures r.None? ==> forall j :: 0 <= j < |paths| ==> onDisk(paths[j])
    decreases |paths|
  {
    if paths == [] then None
    else if !onDisk(paths[0]) then Some(0)
    else match FirstMissing(paths[1..], onDisk)
      case None => None
      case Some(k) => Some(k + 1)
  }

  /** What the content loop yields: the content, or the first absent image (the process exits there). */
  function ContentOrMissing(question: string, paths: seq<string>, onDisk: string -> bool,
                            encode: string -> string): Built<seq<Block>>
  {
    match FirstMissing(paths, onDisk)
    case Some(k) => MissingImage(paths[k])
    case None => Built(Content(question, paths, encode))
  }

  function HistoryTurns(history: Option<seq<Turn>>): seq<Turn> {
    match history
    case None => []
    case Some(h) => h
  }

  /** `messages`: the history turns, unchanged and in order, then the user turn last. */
  function Conversation(history: Option<seq<Turn>>, user: Turn): (r: seq<Turn>)
    ensures |r| == |HistoryTurns(history)| + 1
    ensures r[|r| - 1] == user
    ensures r[..|r| - 1] == HistoryTurns(history)
  {
    match history
    case None => [user]
    case Some(h) => h + [user]
  }

  /**
   * The payload `query_single_turn` posts, or the image whose absence ends the
   * process first: the process ends exactly when some image is absent, naming
   * the first one; otherwise the payload passes model, temperature and
   * max_tokens through, keeps the history in front, and its last turn is the
   * user's, holding the question first and then one high-detail data-URL
   * image per path in order.
   */
  function PayloadFor(question: string, paths: seq<string>, history: Option<seq<Turn>>, model: string,
                      temperature: real, maxTokens: int, onDisk: string -> bool,
                      encode: string -> string): (r: Built<Payload>)
    ensures r.MissingImage? <==> exists i :: 0 <= i < |paths| && !onDisk(paths[i])
    ensures r.MissingImage? ==>
      exists i :: 0 <= i < |paths| && paths[i] == r.path && !onDisk(paths[i]) &&
                  forall j :: 0 <= j < i ==> onDisk(paths[j])
    ensures r.Built? ==>
      var p := r.value;
      && p.model == model && p.temperature == temperature && p.maxTokens == maxTokens
      && |p.messages| == |HistoryTurns(history)| + 1
      && p.messages[..|p.messages| - 1] == HistoryTurns(history)
      && p.messages[|p.messages| - 1].role == User
      && |p.messages[|p.messages| - 1].content| == 1 + |paths|
      && p.messages[|p.messages| - 1].content[0] == Text(question)
      && forall i :: 0 <= i < |paths| ==>
           p.messages[|p.messages| - 1].content[i + 1] == ImageUrl(DataUrlPrefix + encode(paths[i]), "high")
  {
    match ContentOrMissing(question, paths, onDisk, encode)
    case MissingImage(p) => MissingImage(p)
    case Built(content) => Built(Payload(model, Conversation(history, Turn(User, content)), temperature, maxTokens))
  }

  /** The content loop of `query_single_turn`: text block first, then each image encoded and appended in turn. */
  method BuildContent(question: string, paths: seq<string>, onDisk: string -> bool,
                      encode: string -> string) returns (r: Built<seq<Block>>)
    ensures r == ContentOrMissing(question, paths, onDisk, encode)
    ensures r.Built? ==> |r.value| == 1 + |paths| && r.value[0] == Text(question)
    ensures r.Built? ==> forall i :: 0 <= i < |paths| ==> r.value[i + 1] == ImageBlock(encode(paths[i]))
  {
    var content := [Text(question)];
    for k := 0 to |paths|
      invariant content == Content(question, paths[..k], encode)
      invariant forall j :: 0 <= j < k ==> onDisk(paths[j])
    {
      if !onDisk(paths[k]) {
        return MissingImage(paths[k]);
      }
      assert paths[..k + 1][..k] == paths[..k];
      content := content + [ImageBlock(encode(paths[k]))];
    }
    assert paths[..|paths|] == paths;
    r := Built(content);
  }

  /** `query_single_turn` up to the POST: content, then `messages`, then the payload. */
  method BuildPayload(question: string, paths: seq<string>, history: Option<seq<Turn>>, model: string,
                      temperature: real, maxTokens: int, onDisk: string -> bool,
                      encode: string -> string) returns (r: Built<Payload>)
    ensures r == PayloadFor(question, paths, history, model, temperature, maxTokens, onDisk, encode)
  {
    var content := BuildContent(question, paths, onDisk, encode);
    if content.MissingImage? {
      return MissingImage(content.path);
    }
    var messages := [Turn(User, content.value)];
    if history.Some? {
      messages := history.value + messages;
    }
    r := Built(Payload(model, messages, temperature, maxTokens));
  }
}
