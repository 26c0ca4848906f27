/** The records the chat window keeps: conversations with their messages, files and
    generated outputs, and the generation configuration snapshotted onto them.
    Identifiers are opaque strings, timestamps integer milliseconds. */
module Model {
  import opened Base

  type Id = string
  type SessionId = string

  datatype Role = User | Assistant

  /** The generation settings: content kind, style, output kind, slide length,
      poster density and fast mode. */
  datatype Config = Config(
    content: string,
    style: string,
    output: string,
    length: string,
    density: string,
    fastMode: bool)

  /** A file of a conversation or of a message. `blobUrl` is the local preview
      handle, `url` the backend's permanent address, `sessionId` the backend session
      that received the upload. */
  datatype FileRef = FileRef(
    name: string,
    size: int,
    fileType: string,
    url: Option<string>,
    blobUrl: Option<string>,
    sessionId: Option<string>)

  /** A chat message. An absent file list is the empty sequence and an absent
      `isError` is false. */
  datatype Message = Message(
    id: Id,
    role: Role,
    content: string,
    files: seq<FileRef>,
    config: Option<Config>,
    timestamp: Option<int>,
    isError: bool,
    pptUrl: Option<string>,
    posterUrl: Option<string>,
    slides: seq<string>)

  /** One generated artifact recorded in a conversation. */
  datatype GeneratedOutput = GeneratedOutput(
    id: Id,
    outputType: string,
    style: string,
    content: string,
    length: Option<string>,
    density: Option<string>,
    pptUrl: Option<string>,
    posterUrl: Option<string>,
    slides: seq<string>,
    sourceFiles: seq<string>,
    timestamp: int)

  datatype Conversation = Conversation(
    id: Id,
    title: string,
    messages: seq<Message>,
    files: seq<FileRef>,
    generatedOutputs: seq<GeneratedOutput>,
    config: Config,
    createdAt: int,
    updatedAt: int)

  /** A conversation with no messages, no files and no generated outputs. */
  predicate IsEmpty(c: Conversation) {
    c.messages == [] && c.files == [] && c.generatedOutputs == []
  }

  /** Some conversation in `convs` has identifier `id`. */
  predicate HasId(convs: seq<Conversation>, id: Id) {
    exists k :: 0 <= k < |convs| && convs[k].id == id
  }
}
