/** internal/ws/events.go: the messages of a channel, as far as the protocol depends on them. */
module WsEvents {
  import opened Transcripts

  datatype Message =
    | NewLine(lineID: int, content: Content)
    | PartialSync(streamID: string, transcript: seq<Line>)
    | Sync(streamID: string, transcript: seq<Line>)
    | PastStreams(streamIDs: seq<string>)
    | Other(event: string)

  /** EventNewLineData: the line as it goes to every client; it does not name the stream. */
  function NewLineOf(line: Line): Message {
    NewLine(line.id, line.content)
  }
}
