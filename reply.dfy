/**
 * Reading one response line of the command connection: the split of a reply
 * into its sequence prefix and its message (`parseReplyStringPrefix`), and
 * the choice of registry a message patches (`parseResponseLine`).
 */
module Reply {
  import opened GoStrings

  /**
   * `parseReplyStringPrefix`: a line with exactly one '|' gives the text
   * before and after it; any other line gives two empty strings.
   */
  function ParseReplyStringPrefix(line: string): (r: (string, string))
    ensures Count(line, '|') == 1 ==> r.0 + "|" + r.1 == line
    ensures '|' !in r.0 && '|' !in r.1
    ensures Count(line, '|') != 1 ==> r == ("", "")
  {
    var tokens := Split(line, '|');
    SplitCount(line, '|');
    JoinSplit(line, '|');
    if |tokens| == 2 then
      assert Join(tokens, '|') == tokens[0] + ['|'] + tokens[1];
      (tokens[0], tokens[1])
    else ("", "")
  }

  /** A prefix and a message without '|' are read back from their reply line. */
  lemma ParseReplyRoundTrip(prefix: string, message: string)
    requires '|' !in prefix && '|' !in message
    ensures ParseReplyStringPrefix(prefix + "|" + message) == (prefix, message)
  {
    var line := prefix + "|" + message;
    SplitJoin([prefix, message], '|');
    assert Join([prefix, message], '|') == line;
  }

  /** The marker of a panadapter status message. */
  const PanadapterMarker := "display pan"

  /** The marker of a DAX IQ stream status message. */
  const IqStreamMarker := "daxiq "

  /** Which registry a response line patches, with the message to parse. */
  datatype Route = PanadapterStatus(message: string) | IqStreamStatus(message: string) | Unrouted

  /** The routing decision of `parseResponseLine`. */
  function RouteOf(line: string): (r: Route)
    ensures r != Unrouted ==> Count(line, '|') == 1 && r.message == ParseReplyStringPrefix(line).1
    ensures r.PanadapterStatus? <==> Contains(ParseReplyStringPrefix(line).1, PanadapterMarker)
    ensures r.IqStreamStatus? <==> !Contains(ParseReplyStringPrefix(line).1, PanadapterMarker)
                                   && Contains(ParseReplyStringPrefix(line).1, IqStreamMarker)
  {
    var (_, message) := ParseReplyStringPrefix(line);
    EmptyContainsNothing(PanadapterMarker);
    EmptyContainsNothing(IqStreamMarker);
    if Contains(message, PanadapterMarker) then PanadapterStatus(message)
    else if Contains(message, IqStreamMarker) then IqStreamStatus(message)
    else Unrouted
  }

  /** A line without a '|' (a handle line, unstructured text) is never routed to a registry. */
  lemma NoSeparatorIsUnrouted(line: string)
    requires '|' !in line
    ensures RouteOf(line) == Unrouted
  {
  }
}
