/** The `sendConsoleMessage` task: standard input collected into one message. */
module Console {
  import opened Js
  import opened Config
  import opened Actions

  /** What one `process.stdin.read()` in a 'readable' handler returned. */
  datatype Read = Null | Chunk(text: string)

  /** The non-null chunks, in the order they were read. */
  function Received(input: seq<Read>): seq<string> {
    if |input| == 0 then []
    else (if input[0].Chunk? then [input[0].text] else []) + Received(input[1..])
  }

  /** The concatenation of a list of strings, in order. */
  function Join(parts: seq<string>): string {
    if |parts| == 0 then "" else parts[0] + Join(parts[1..])
  }

  /** The 'readable' handlers one after another: each non-null chunk is
      appended to the message read so far. */
  function Collect(input: seq<Read>, message: string): string
    decreases |input|
  {
    if |input| == 0 then message
    else Collect(input[1..], if input[0].Chunk? then message + input[0].text else message)
  }

  /** Collecting appends exactly the in-order concatenation of the non-null chunks. */
  lemma {:induction false} CollectJoinsChunks(input: seq<Read>, message: string)
    ensures Collect(input, message) == message + Join(Received(input))
    decreases |input|
  {
    if |input| > 0 {
      var next := if input[0].Chunk? then message + input[0].text else message;
      CollectJoinsChunks(input[1..], next);
      if input[0].Chunk? {
        assert Received(input) == [input[0].text] + Received(input[1..]);
        assert Join(Received(input)) == input[0].text + Join(Received(input[1..]));
      } else {
        assert Received(input) == Received(input[1..]);
      }
    }
  }

  /** The text posted at end of input: every non-null chunk read before the
      'end' event, concatenated in order, starting from the empty message. */
  function ConsoleText(input: seq<Read>): (text: string)
    ensures text == Join(Received(input))
  {
    CollectJoinsChunks(input, "");
    Collect(input, "")
  }

  /** `sendConsoleMessage`: nothing without `--console`; with it, one post of
      the collected text. */
  function SendConsoleMessageTask(o: Options, channel: string, input: seq<Read>): (p: Option<Post>)
    ensures p.Some? <==> o.console
    ensures p.Some? ==> p.value == PostMessage(channel, Join(Received(input)))
  {
    if !o.console then None
    else Some(PostMessage(channel, ConsoleText(input)))
  }
}
