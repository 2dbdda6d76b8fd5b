/**
 * The response side of the command connection, one step at a time: what one
 * response line (`parseResponseLine` plus the body of the line loop in
 * `subscribeRadioUpdates`) and one read buffer do to the session's text
 * state. Each read is split on '\n' on its own; no fragment is carried over
 * to the next read.
 */
module Session {
  import opened GoStrings
  import opened KeyValue
  import opened Registry
  import opened Reply

  /**
   * The part of the session that the command connection's reader changes:
   * the handle, whether a response consumer is bound and what it has been
   * sent so far, and the two registries.
   */
  datatype TextState = TextState(handle: string, responseBound: bool, responses: seq<string>,
                                 panadapters: map<string, Panadapter>, iqStreams: map<string, IqStream>)

  /** How many bare words the status parsers skip before the identifier. */
  const SkippedWords := 1

  /** `parseResponseLine`: patch the registry the line's message is routed to. */
  function ApplyResponseLine(st: TextState, line: string, centerOf: string -> Int32): (r: TextState)
    ensures r.handle == st.handle && r.responseBound == st.responseBound && r.responses == st.responses
    ensures Count(line, '|') != 1 ==> r == st
    ensures !RouteOf(line).PanadapterStatus? ==> r.panadapters == st.panadapters
    ensures !RouteOf(line).IqStreamStatus? ==> r.iqStreams == st.iqStreams
  {
    match RouteOf(line)
    case PanadapterStatus(message) =>
      var p := ParseKeyValue(message, SkippedWords);
      st.(panadapters := PatchPanadapter(st.panadapters, p.id, p.attrs, centerOf))
    case IqStreamStatus(message) =>
      var p := ParseKeyValue(message, SkippedWords);
      st.(iqStreams := PatchIqStream(st.iqStreams, p.id, p.attrs))
    case Unrouted => st
  }

  /** A line that is empty once leading and trailing spaces are trimmed. */
  predicate IsBlank(line: string)
  {
    |Trim(line, ' ')| == 0
  }

  /** `strings.HasPrefix(strings.ToUpper(line), "H")`: the line starts with 'h' or 'H'. */
  predicate HasHandlePrefix(line: string)
  {
    |line| > 0 && (line[0] == 'h' || line[0] == 'H')
  }

  /** A line that assigns the handle in state `st`. */
  predicate AssignsHandle(st: TextState, line: string)
  {
    !IsBlank(line) && |st.handle| == 0 && HasHandlePrefix(line)
  }

  /** One response line: skipped if blank, else the handle, else forwarded and parsed if bound. */
  function StepLine(st: TextState, line: string, centerOf: string -> Int32): (r: TextState)
    ensures IsBlank(line) ==> r == st
    ensures r.handle == if AssignsHandle(st, line) then line[1..] else st.handle
    ensures r.responseBound == st.responseBound
    ensures r.responses == st.responses
                           + (if !IsBlank(line) && !AssignsHandle(st, line) && st.responseBound then [line] else [])
    ensures !st.responseBound || AssignsHandle(st, line) ==> r == st.(handle := r.handle)
  {
    if IsBlank(line) then st
    else if |st.handle| == 0 && HasHandlePrefix(line) then st.(handle := line[1..])
    else if !st.responseBound then st
    else ApplyResponseLine(st.(responses := st.responses + [line]), line, centerOf)
  }

  /** The lines of one read, taken in order. */
  function StepLines(st: TextState, lines: seq<string>, centerOf: string -> Int32): TextState
    decreases |lines|
  {
    if |lines| == 0 then st
    else StepLine(StepLines(st, lines[..|lines| - 1], centerOf), lines[|lines| - 1], centerOf)
  }

  /** One read buffer of the command connection. */
  function StepRead(st: TextState, response: string, centerOf: string -> Int32): TextState
  {
    if |response| == 0 then st else StepLines(st, Split(response, '\n'), centerOf)
  }

  /** Taking one more line of a read is one more step. */
  lemma StepLinesPrefix(st: TextState, lines: seq<string>, i: int, centerOf: string -> Int32)
    requires 0 <= i < |lines|
    ensures StepLines(st, lines[..i + 1], centerOf) == StepLine(StepLines(st, lines[..i], centerOf), lines[i], centerOf)
  {
    assert lines[..i + 1][..i] == lines[..i];
  }

  /** Once the session has a handle, no line ever changes it. */
  lemma {:induction false} HandleAssignedOnce(st: TextState, lines: seq<string>, centerOf: string -> Int32)
    requires |st.handle| > 0
    ensures StepLines(st, lines, centerOf).handle == st.handle
    decreases |lines|
  {
    if |lines| > 0 {
      HandleAssignedOnce(st, lines[..|lines| - 1], centerOf);
    }
  }

  /** Without a bound response consumer, a read can change the handle and nothing else. */
  lemma {:induction false} UnboundChangesOnlyHandle(st: TextState, lines: seq<string>, centerOf: string -> Int32)
    requires !st.responseBound
    ensures StepLines(st, lines, centerOf) == st.(handle := StepLines(st, lines, centerOf).handle)
    decreases |lines|
  {
    if |lines| > 0 {
      UnboundChangesOnlyHandle(st, lines[..|lines| - 1], centerOf);
    }
  }

  /** The non-blank lines among `lines`, in order. */
  function NonBlank(lines: seq<string>): (r: seq<string>)
    ensures |r| <= |lines|
    ensures forall i :: 0 <= i < |r| ==> !IsBlank(r[i])
    decreases |lines|
  {
    if |lines| == 0 then []
    else NonBlank(lines[..|lines| - 1]) + (if IsBlank(lines[|lines| - 1]) then [] else [lines[|lines| - 1]])
  }

  /** The lines kept are exactly the lines that are not blank. */
  lemma {:induction false} NonBlankMembers(lines: seq<string>)
    ensures forall l :: l in NonBlank(lines) <==> l in lines && !IsBlank(l)
    decreases |lines|
  {
    if |lines| > 0 {
      var init := lines[..|lines| - 1];
      NonBlankMembers(init);
      assert lines == init + [lines[|lines| - 1]];
    }
  }

  /** The non-blank lines of two line lists in a row are those of the first, then those of the second. */
  lemma {:induction false} NonBlankConcat(a: seq<string>, b: seq<string>)
    ensures NonBlank(a + b) == NonBlank(a) + NonBlank(b)
    decreases |b|
  {
    if |b| == 0 {
      assert a + b == a;
    } else {
      var init, last := b[..|b| - 1], b[|b| - 1];
      var tail := if IsBlank(last) then [] else [last];
      NonBlankConcat(a, init);
      assert (a + b)[..|a + b| - 1] == a + init;
      assert (a + b)[|a + b| - 1] == last;
      assert NonBlank(a + b) == NonBlank(a + init) + tail;
      assert NonBlank(b) == NonBlank(init) + tail;
    }
  }

  /**
   * Every non-blank line is kept, in order: the non-blank line at index `i`
   * comes after exactly the non-blank lines before it.
   */
  lemma NonBlankPosition(lines: seq<string>, i: int)
    requires 0 <= i < |lines| && !IsBlank(lines[i])
    ensures |NonBlank(lines[..i])| < |NonBlank(lines)|
    ensures NonBlank(lines)[|NonBlank(lines[..i])|] == lines[i]
  {
    var before, line, after := lines[..i], lines[i], lines[i + 1..];
    SliceAround(lines, i);
    NonBlankConcat(before, [line] + after);
    NonBlankConcat([line], after);
    assert NonBlank([line]) == [line] by {
      assert [line][..0] == [];
    }
    assert NonBlank(lines) == NonBlank(before) + ([line] + NonBlank(after));
  }

  /** Whether a response consumer is bound never changes. */
  lemma {:induction false} ResponseBoundPreserved(st: TextState, lines: seq<string>, centerOf: string -> Int32)
    ensures StepLines(st, lines, centerOf).responseBound == st.responseBound
    decreases |lines|
  {
    if |lines| > 0 {
      ResponseBoundPreserved(st, lines[..|lines| - 1], centerOf);
    }
  }

  /**
   * Once the handle is known and a consumer is bound, every non-blank line is
   * forwarded verbatim and in order, handle-like lines included.
   */
  lemma {:induction false} ForwardedAfterHandle(st: TextState, lines: seq<string>, centerOf: string -> Int32)
    requires |st.handle| > 0 && st.responseBound
    ensures StepLines(st, lines, centerOf).responses == st.responses + NonBlank(lines)
    decreases |lines|
  {
    if |lines| > 0 {
      var init, last := lines[..|lines| - 1], lines[|lines| - 1];
      var mid := StepLines(st, init, centerOf);
      ForwardedAfterHandle(st, init, centerOf);
      HandleAssignedOnce(st, init, centerOf);
      ResponseBoundPreserved(st, init, centerOf);
      assert !AssignsHandle(mid, last);
      assert StepLines(st, lines, centerOf) == StepLine(mid, last, centerOf);
      assert NonBlank(lines) == NonBlank(init) + (if IsBlank(last) then [] else [last]);
    }
  }

  /** No registry entry is removed, and no entry's identifier is replaced. */
  ghost predicate EntriesKept(st: TextState, r: TextState)
  {
    && st.panadapters.Keys <= r.panadapters.Keys
    && st.iqStreams.Keys <= r.iqStreams.Keys
    && (forall k :: k in st.panadapters ==> r.panadapters[k].id == st.panadapters[k].id)
    && (forall k :: k in st.iqStreams ==> r.iqStreams[k].id == st.iqStreams[k].id)
  }

  lemma ApplyResponseLineKeepsEntries(st: TextState, line: string, centerOf: string -> Int32)
    ensures EntriesKept(st, ApplyResponseLine(st, line, centerOf))
  {
    match RouteOf(line)
    case PanadapterStatus(message) =>
      var p := ParseKeyValue(message, SkippedWords);
      assert ApplyResponseLine(st, line, centerOf)
          == st.(panadapters := PatchPanadapter(st.panadapters, p.id, p.attrs, centerOf));
    case IqStreamStatus(message) =>
      var p := ParseKeyValue(message, SkippedWords);
      assert ApplyResponseLine(st, line, centerOf) == st.(iqStreams := PatchIqStream(st.iqStreams, p.id, p.attrs));
    case Unrouted =>
  }

  lemma StepLineKeepsEntries(st: TextState, line: string, centerOf: string -> Int32)
    ensures EntriesKept(st, StepLine(st, line, centerOf))
  {
    if !IsBlank(line) && !AssignsHandle(st, line) && st.responseBound {
      var forwarded := st.(responses := st.responses + [line]);
      assert StepLine(st, line, centerOf) == ApplyResponseLine(forwarded, line, centerOf);
      ApplyResponseLineKeepsEntries(forwarded, line, centerOf);
    }
  }

  /**
   * Registry entries are never removed, and an entry's identifier is never
   * replaced: patches only overwrite individual fields.
   */
  lemma {:induction false} EntriesPersist(st: TextState, lines: seq<string>, centerOf: string -> Int32)
    ensures EntriesKept(st, StepLines(st, lines, centerOf))
    decreases |lines|
  {
    if |lines| > 0 {
      var init := lines[..|lines| - 1];
      var mid := StepLines(st, init, centerOf);
      EntriesPersist(st, init, centerOf);
      StepLineKeepsEntries(mid, lines[|lines| - 1], centerOf);
    }
  }

  /**
   * A panadapter status message without any '=' still creates an entry: the
   * parse error is ignored and the empty identifier is stored.
   */
  lemma MalformedPanadapterStatus(st: TextState, line: string, centerOf: string -> Int32)
    requires RouteOf(line).PanadapterStatus? && '=' !in RouteOf(line).message
    ensures var r := ApplyResponseLine(st, line, centerOf);
      "" in r.panadapters && r.panadapters[""] == (if "" in st.panadapters then st.panadapters[""] else NewPanadapter(""))
  {
  }
}
