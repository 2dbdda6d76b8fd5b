/**
 * `RadioContext` and the operations of `obj/radio.go` that update it in
 * place: the command sequencer, the registry updaters, the per-read line loop
 * of the command connection and the per-datagram step of the UDP listener.
 *
 * The sockets are gone: a write to the command connection appends to
 * `outbound`, a read is a string handed to `HandleRead`, and a datagram is a
 * byte sequence handed to `ReceiveDatagram`. Each channel is a bound flag
 * fixed at construction plus the log of what was sent on it.
 */
module Radio {
  import opened Wrappers
  import opened GoStrings
  import opened KeyValue
  import opened Registry
  import opened Reply
  import opened Session
  import opened Commands
  import opened Vita

  class RadioContext {
    var radioCmdSeqNumber: int
    /** Everything written to the command connection, in order. */
    var outbound: seq<string>
    /** The commands sent so far, in order. */
    ghost var issued: seq<string>

    var radioHandle: string
    /** Whether `ChannelRadioResponse` is bound, and what it has been sent. */
    const responseBound: bool
    var responses: seq<string>
    var panadapters: map<string, Panadapter>
    var iqStreams: map<string, IqStream>

    /** Whether `ChannelRadioData` is bound, and what it has been sent. */
    const radioDataBound: bool
    var radioData: seq<RadioData>

    /** The telemetry sinks that are bound, and what each has been sent. */
    const boundSinks: set<Sink>
    var fftOut: seq<SdrFFTPacket>
    var opusOut: seq<seq<byte>>
    var ifDataOut: seq<SdrIfData>
    var meterOut: seq<SdrMeterPacket>
    var waterfallOut: seq<SdrWaterfallTile>
    /** The payload decoders called so far, in order. */
    ghost var decodeCalls: seq<Decoder>

    /** The counter has numbered every command sent, and each was written as its frame. */
    ghost predicate Valid()
      reads this
    {
      radioCmdSeqNumber == |issued| && outbound == Frames(issued)
    }

    /** The state the command connection's reader works on. */
    function TextStateOf(): (st: TextState)
      reads this
      ensures st.handle == radioHandle && st.responses == responses
      ensures st.panadapters == panadapters && st.iqStreams == iqStreams
    {
      TextState(radioHandle, responseBound, responses, panadapters, iqStreams)
    }

    /** What the five telemetry sinks have received. */
    function Logs(): (logs: SinkLogs)
      reads this
      ensures logs.fft == fftOut && logs.opus == opusOut && logs.ifData == ifDataOut
      ensures logs.meter == meterOut && logs.waterfall == waterfallOut
    {
      SinkLogs(fftOut, opusOut, ifDataOut, meterOut, waterfallOut)
    }

    /** A zero-initialised context with the given channels bound. */
    constructor (responseBound: bool, radioDataBound: bool, boundSinks: set<Sink>)
      ensures Valid() && issued == [] && outbound == []
      ensures TextStateOf() == TextState("", responseBound, [], map[], map[])
      ensures this.radioDataBound == radioDataBound && radioData == []
      ensures this.boundSinks == boundSinks && Logs() == SinkLogs([], [], [], [], []) && decodeCalls == []
    {
      radioCmdSeqNumber := 0;
      outbound := [];
      issued := [];
      radioHandle := "";
      this.responseBound := responseBound;
      responses := [];
      panadapters := map[];
      iqStreams := map[];
      this.radioDataBound := radioDataBound;
      radioData := [];
      this.boundSinks := boundSinks;
      fftOut := [];
      opusOut := [];
      ifDataOut := [];
      meterOut := [];
      waterfallOut := [];
      decodeCalls := [];
    }

    /** `getNextCommandPrefix`: advance the counter by one and build the prefix for its new value. */
    method GetNextCommandPrefix() returns (prefix: string, sequence: int)
      modifies this`radioCmdSeqNumber
      ensures radioCmdSeqNumber == old(radioCmdSeqNumber) + 1
      ensures sequence == radioCmdSeqNumber
      ensures prefix == CommandPrefix(sequence)
    {
      radioCmdSeqNumber := radioCmdSeqNumber + 1;
      prefix := "C" + Itoa(radioCmdSeqNumber) + "|";
      sequence := radioCmdSeqNumber;
    }

    /**
     * `SendRadioCommand`: write the command's frame and return its sequence
     * number, which is the number of commands sent so far, this one included.
     */
    method SendRadioCommand(cmd: string) returns (sequence: int)
      requires Valid()
      modifies this`radioCmdSeqNumber, this`outbound, this`issued
      ensures Valid()
      ensures issued == old(issued) + [cmd]
      ensures sequence == |issued| == old(radioCmdSeqNumber) + 1
      ensures outbound == old(outbound) + [CommandFrame(sequence, cmd)]
    {
      var prefixString;
      prefixString, sequence := GetNextCommandPrefix();
      FramesAppend(issued, cmd);
      issued := issued + [cmd];
      outbound := outbound + [prefixString + cmd + "\r"];
    }

    /** `parsePanAdapterParams`: merge a panadapter status message into the registry. */
    method ParsePanAdapterParams(message: string, centerOf: string -> Int32)
      modifies this`panadapters
      ensures var p := ParseKeyValue(message, SkippedWords);
              panadapters == PatchPanadapter(old(panadapters), p.id, p.attrs, centerOf)
    {
      var _, res, objectValue := ParseKeyValueString(message, SkippedWords);
      var panadapter := NewPanadapter(objectValue);
      var dirty := false;
      var (stored, actual, loaded) := LoadOrStore(panadapters, objectValue, panadapter);
      panadapters := stored;
      if loaded {
        panadapter := actual;
      }
      if "center" in res {
        panadapter := panadapter.(center := centerOf(res["center"]));
        dirty := true;
      }
      if dirty {
        panadapters := panadapters[objectValue := panadapter];
      }
    }

    /** `parseDaxIqStatusParams`: merge a DAX IQ stream status message into the registry. */
    method ParseDaxIqStatusParams(message: string)
      modifies this`iqStreams
      ensures var p := ParseKeyValue(message, SkippedWords);
              iqStreams == PatchIqStream(old(iqStreams), p.id, p.attrs)
    {
      var _, res, objectValue := ParseKeyValueString(message, SkippedWords);
      var iqStream := NewIqStream(objectValue);
      var dirty := false;
      var (stored, actual, loaded) := LoadOrStore(iqStreams, objectValue, iqStream);
      iqStreams := stored;
      if loaded {
        iqStream := actual;
      }
      if "pan" in res {
        iqStream := iqStream.(pan := res["pan"]);
        dirty := true;
      }
      if "rate" in res {
        iqStream := iqStream.(rate := Atoi(res["rate"]));
        dirty := true;
      }
      if dirty {
        iqStreams := iqStreams[objectValue := iqStream];
      }
    }

    /** `parseResponseLine`: patch the registry the line's message is routed to. */
    method ParseResponseLine(line: string, centerOf: string -> Int32)
      modifies this`panadapters, this`iqStreams
      ensures TextStateOf() == ApplyResponseLine(old(TextStateOf()), line, centerOf)
    {
      var (_, message) := ParseReplyStringPrefix(line);
      if Contains(message, PanadapterMarker) {
        ParsePanAdapterParams(message, centerOf);
      } else if Contains(message, IqStreamMarker) {
        ParseDaxIqStatusParams(message);
      }
    }

    /** One line of a read: skipped if blank, else the handle, else forwarded and parsed if bound. */
    method HandleResponseLine(responseLine: string, centerOf: string -> Int32)
      modifies this`radioHandle, this`responses, this`panadapters, this`iqStreams
      ensures TextStateOf() == StepLine(old(TextStateOf()), responseLine, centerOf)
    {
      if |Trim(responseLine, ' ')| == 0 {
        return;
      }
      if |radioHandle| == 0 && HasHandlePrefix(responseLine) {
        radioHandle := responseLine[1..];
      } else if responseBound {
        responses := responses + [responseLine];
        ghost var forwarded := TextStateOf();
        assert forwarded == old(TextStateOf()).(responses := old(responses) + [responseLine]);
        ParseResponseLine(responseLine, centerOf);
        assert TextStateOf() == ApplyResponseLine(forwarded, responseLine, centerOf);
      }
    }

    /** One read buffer of the command connection, split into lines and handled in order. */
    method HandleRead(response: string, centerOf: string -> Int32)
      modifies this`radioHandle, this`responses, this`panadapters, this`iqStreams
      ensures TextStateOf() == StepRead(old(TextStateOf()), response, centerOf)
    {
      if |response| == 0 {
        return;
      }
      ghost var st0 := TextStateOf();
      var lines := Split(response, '\n');
      for i := 0 to |lines|
        invariant TextStateOf() == StepLines(st0, lines[..i], centerOf)
      {
        StepLinesPrefix(st0, lines, i, centerOf);
        HandleResponseLine(lines[i], centerOf);
      }
      assert lines[..|lines|] == lines;
    }

    /** `dispatchDataToChannels`: decode one packet and publish it on its sink, if that sink is bound. */
    method DispatchDataToChannels(data: RadioData, dec: Decoders)
      requires OpusSliceInBounds(data, boundSinks)
      modifies this`fftOut, this`opusOut, this`ifDataOut, this`meterOut, this`decodeCalls
      ensures Logs() == Deliver(old(Logs()), Dispatch(data, boundSinks, dec).published)
      ensures decodeCalls == old(decodeCalls) + OptionToSeq(Dispatch(data, boundSinks, dec).decoded)
    {
      var p := data.preamble;
      match p.header.pktType {
        case ExtDataWithStream =>
          match p.classId.packetClassCode {
            case FFTClass =>
              if FFTSink in boundSinks {
                decodeCalls := decodeCalls + [DecodeFFT];
                fftOut := fftOut + [dec.parseVitaFFT(data.payload, p)];
              }
            case OpusClass =>
              if OpusSink in boundSinks {
                opusOut := opusOut + [data.payload[..|data.payload| - p.header.payloadCutoffBytes]];
              }
            case IfNarrowClass =>
              if IfDataSink in boundSinks {
                decodeCalls := decodeCalls + [DecodeIfData];
              }
            case MeterClass =>
              if MeterSink in boundSinks {
                decodeCalls := decodeCalls + [DecodeMeter];
                meterOut := meterOut + [dec.parseVitaMeterPacket(data.payload, p)];
              }
            case DiscoveryClass =>
            case WaterfallClass =>
              if WaterfallSink in boundSinks {
                decodeCalls := decodeCalls + [DecodeWaterfall];
              }
            case _ =>
          }
        case IFDataWithStream =>
          match p.classId.packetClassCode {
            case IfWide24kHzClass | IfWide48kHzClass | IfWide96kHzClass | IfWide192kHzClass =>
              if IfDataSink in boundSinks {
                decodeCalls := decodeCalls + [DecodeIfData];
                ifDataOut := ifDataOut + [dec.parseFData(data.payload, p)];
              }
            case _ =>
          }
        case OtherPacketType(_) =>
      }
    }

    /**
     * One datagram of the UDP listener: `parsePreamble` stands for the
     * preamble parser; the parsed packet goes to `ChannelRadioData` if that
     * is bound, and is then dispatched.
     */
    method ReceiveDatagram(datagram: seq<byte>, parsePreamble: seq<byte> -> RadioData, dec: Decoders)
      requires OpusSliceInBounds(parsePreamble(datagram), boundSinks)
      modifies this`radioData, this`fftOut, this`opusOut, this`ifDataOut, this`meterOut, this`decodeCalls
      ensures radioData == old(radioData) + (if radioDataBound then [parsePreamble(datagram)] else [])
      ensures Logs() == Deliver(old(Logs()), Dispatch(parsePreamble(datagram), boundSinks, dec).published)
      ensures decodeCalls
              == old(decodeCalls) + OptionToSeq(Dispatch(parsePreamble(datagram), boundSinks, dec).decoded)
    {
      var data := parsePreamble(datagram);
      if radioDataBound {
        radioData := radioData + [data];
      }
      DispatchDataToChannels(data, dec);
    }
  }
}
