/**
 * The streaming side: VITA-49 packets as the external preamble parser hands
 * them over, and the dispatch table of `dispatchDataToChannels`, which picks
 * the decoder and the output sink by packet type and class code.
 *
 * The preamble parser, the payload decoders and the record types they return
 * live in the `vita` and `sdrobjects` packages, which are not part of this
 * model: the records are abstract types and the decoders are functions
 * passed in.
 */
module Vita {
  import opened Wrappers

  newtype byte = b: int | 0 <= b < 0x100

  /** The decoded records of the `sdrobjects` package. */
  type SdrFFTPacket(==)
  type SdrIfData(==)
  type SdrMeterPacket(==)
  type SdrWaterfallTile(==)

  /** The parse error the preamble parser may report. */
  type VitaError

  /** The packet types the dispatcher tells apart; every other type is `OtherPacketType`. */
  datatype PacketType = ExtDataWithStream | IFDataWithStream | OtherPacketType(code: int)

  /** The packet class codes the dispatcher tells apart. */
  datatype ClassCode =
    | FFTClass | OpusClass | IfNarrowClass | MeterClass | DiscoveryClass | WaterfallClass
    | IfWide24kHzClass | IfWide48kHzClass | IfWide96kHzClass | IfWide192kHzClass
    | OtherClass(code: int)

  datatype Header = Header(pktType: PacketType, payloadCutoffBytes: nat)
  datatype ClassId = ClassId(packetClassCode: ClassCode)
  datatype Preamble = Preamble(header: Header, classId: ClassId)

  /** `RadioData`: one datagram as parsed by the preamble parser. */
  datatype RadioData = RadioData(preamble: Preamble, payload: seq<byte>, lastErr: Option<VitaError>)

  /** The payload decoders of the `vita` package. */
  datatype Decoders = Decoders(
    parseVitaFFT: (seq<byte>, Preamble) -> SdrFFTPacket,
    parseFData: (seq<byte>, Preamble) -> SdrIfData,
    parseVitaMeterPacket: (seq<byte>, Preamble) -> SdrMeterPacket,
    parseVitaWaterfall: (seq<byte>, Preamble) -> SdrWaterfallTile)

  /** The five telemetry sinks (`ChannelVitaFFT` ... `ChannelVitaWaterfallTile`). */
  datatype Sink = FFTSink | OpusSink | IfDataSink | MeterSink | WaterfallSink

  /** The four decoders the dispatcher may call. */
  datatype Decoder = DecodeFFT | DecodeIfData | DecodeMeter | DecodeWaterfall

  /** The record delivered to a sink. */
  datatype Publication =
    | PubFFT(fft: SdrFFTPacket)
    | PubOpus(audio: seq<byte>)
    | PubIfData(ifData: SdrIfData)
    | PubMeter(meter: SdrMeterPacket)

  /** What one dispatch does: the decoder it calls, if any, and what it publishes, if anything. */
  datatype Effect = Effect(decoded: Option<Decoder>, published: Option<Publication>)

  /** The sink whose binding a decoder call is gated on. */
  function DecoderSink(d: Decoder): Sink
  {
    match d
    case DecodeFFT => FFTSink
    case DecodeIfData => IfDataSink
    case DecodeMeter => MeterSink
    case DecodeWaterfall => WaterfallSink
  }

  /** The sink a publication goes to. */
  function PublicationSink(p: Publication): Sink
  {
    match p
    case PubFFT(_) => FFTSink
    case PubOpus(_) => OpusSink
    case PubIfData(_) => IfDataSink
    case PubMeter(_) => MeterSink
  }

  predicate IsExtData(data: RadioData, code: ClassCode)
  {
    data.preamble.header.pktType == ExtDataWithStream && data.preamble.classId.packetClassCode == code
  }

  predicate IsIfWide(code: ClassCode)
  {
    code == IfWide24kHzClass || code == IfWide48kHzClass || code == IfWide96kHzClass || code == IfWide192kHzClass
  }

  /** An IF-wide packet: the four bandwidths share one stream. */
  predicate IsIfWideData(data: RadioData)
  {
    data.preamble.header.pktType == IFDataWithStream && IsIfWide(data.preamble.classId.packetClassCode)
  }

  /** The Opus trim `payload[:len(payload) - cutoff]` stays inside the payload. */
  predicate OpusSliceInBounds(data: RadioData, bound: set<Sink>)
  {
    IsExtData(data, OpusClass) && OpusSink in bound ==> data.preamble.header.payloadCutoffBytes <= |data.payload|
  }

  /** The Opus payload with the trailing cutoff bytes removed. */
  function TrimmedOpus(data: RadioData): seq<byte>
    requires data.preamble.header.payloadCutoffBytes <= |data.payload|
  {
    data.payload[..|data.payload| - data.preamble.header.payloadCutoffBytes]
  }

  /** `dispatchDataToChannels`: the decoder called and the record published for one packet. */
  function Dispatch(data: RadioData, bound: set<Sink>, dec: Decoders): (e: Effect)
    requires OpusSliceInBounds(data, bound)
    // nothing is decoded or published for a sink that is not bound
    ensures e.decoded.Some? ==> DecoderSink(e.decoded.value) in bound
    ensures e.published.Some? ==> PublicationSink(e.published.value) in bound
    // a publication is always the decoded record of its own sink, or the trimmed audio
    ensures e.published.Some? && !e.published.value.PubOpus?
            ==> e.decoded.Some? && DecoderSink(e.decoded.value) == PublicationSink(e.published.value)
    // discovery, IF-narrow, waterfall, unknown codes and other packet types publish nothing
    ensures IsExtData(data, DiscoveryClass) ==> e == Effect(None, None)
    ensures IsExtData(data, IfNarrowClass) || IsExtData(data, WaterfallClass) ==> e.published.None?
    ensures (!IsExtData(data, FFTClass) && !IsExtData(data, OpusClass) && !IsExtData(data, MeterClass)
             && !IsIfWideData(data)) ==> e.published.None?
    // which sink receives what
    ensures IsExtData(data, FFTClass) && FFTSink in bound
            ==> e == Effect(Some(DecodeFFT), Some(PubFFT(dec.parseVitaFFT(data.payload, data.preamble))))
    ensures IsExtData(data, OpusClass) && OpusSink in bound ==> e == Effect(None, Some(PubOpus(TrimmedOpus(data))))
    ensures IsExtData(data, MeterClass) && MeterSink in bound
            ==> e == Effect(Some(DecodeMeter), Some(PubMeter(dec.parseVitaMeterPacket(data.payload, data.preamble))))
    ensures IsIfWideData(data) && IfDataSink in bound
            ==> e == Effect(Some(DecodeIfData), Some(PubIfData(dec.parseFData(data.payload, data.preamble))))
    ensures IsExtData(data, IfNarrowClass) && IfDataSink in bound ==> e == Effect(Some(DecodeIfData), None)
    ensures IsExtData(data, WaterfallClass) && WaterfallSink in bound ==> e == Effect(Some(DecodeWaterfall), None)
    // a handled packet whose own sink is not bound does nothing at all
    ensures IsExtData(data, FFTClass) && FFTSink !in bound ==> e == Effect(None, None)
    ensures IsExtData(data, OpusClass) && OpusSink !in bound ==> e == Effect(None, None)
    ensures IsExtData(data, MeterClass) && MeterSink !in bound ==> e == Effect(None, None)
    ensures IsExtData(data, IfNarrowClass) && IfDataSink !in bound ==> e == Effect(None, None)
    ensures IsExtData(data, WaterfallClass) && WaterfallSink !in bound ==> e == Effect(None, None)
    ensures IsIfWideData(data) && IfDataSink !in bound ==> e == Effect(None, None)
    // any other packet type, or an IF-data packet of any other class, does nothing at all
    ensures data.preamble.header.pktType.OtherPacketType? ==> e == Effect(None, None)
    ensures data.preamble.header.pktType == ExtDataWithStream
            && (data.preamble.classId.packetClassCode.OtherClass? || IsIfWide(data.preamble.classId.packetClassCode))
            ==> e == Effect(None, None)
    ensures data.preamble.header.pktType == IFDataWithStream && !IsIfWideData(data) ==> e == Effect(None, None)
  {
    var p := data.preamble;
    match p.header.pktType
    case ExtDataWithStream =>
      (match p.classId.packetClassCode
       case FFTClass =>
         if FFTSink in bound then Effect(Some(DecodeFFT), Some(PubFFT(dec.parseVitaFFT(data.payload, p))))
         else Effect(None, None)
       case OpusClass =>
         if OpusSink in bound then Effect(None, Some(PubOpus(TrimmedOpus(data)))) else Effect(None, None)
       case IfNarrowClass =>
         // the decoded record is dropped, not published
         if IfDataSink in bound then Effect(Some(DecodeIfData), None) else Effect(None, None)
       case MeterClass =>
         if MeterSink in bound
         then Effect(Some(DecodeMeter), Some(PubMeter(dec.parseVitaMeterPacket(data.payload, p))))
         else Effect(None, None)
       case DiscoveryClass => Effect(None, None)
       case WaterfallClass =>
         // the decoded tile is dropped, not published
         if WaterfallSink in bound then Effect(Some(DecodeWaterfall), None) else Effect(None, None)
       case _ => Effect(None, None))
    case IFDataWithStream =>
      if IsIfWide(p.classId.packetClassCode) && IfDataSink in bound
      then Effect(Some(DecodeIfData), Some(PubIfData(dec.parseFData(data.payload, p))))
      else Effect(None, None)
    case OtherPacketType(_) => Effect(None, None)
  }

  /** What the five sinks have received so far. */
  datatype SinkLogs = SinkLogs(fft: seq<SdrFFTPacket>, opus: seq<seq<byte>>, ifData: seq<SdrIfData>,
                               meter: seq<SdrMeterPacket>, waterfall: seq<SdrWaterfallTile>)

  /** The log of sink `s` is the same in both. */
  predicate SameLog(a: SinkLogs, b: SinkLogs, s: Sink)
  {
    match s
    case FFTSink => a.fft == b.fft
    case OpusSink => a.opus == b.opus
    case IfDataSink => a.ifData == b.ifData
    case MeterSink => a.meter == b.meter
    case WaterfallSink => a.waterfall == b.waterfall
  }

  /** Hand a publication, if there is one, to its sink. */
  function Deliver(logs: SinkLogs, published: Option<Publication>): (r: SinkLogs)
    ensures published.None? ==> r == logs
    ensures published.Some? ==> forall s :: s != PublicationSink(published.value) ==> SameLog(r, logs, s)
    ensures r.waterfall == logs.waterfall
    // the publication is appended to its own sink's log
    ensures published.Some? && published.value.PubFFT? ==> r.fft == logs.fft + [published.value.fft]
    ensures published.Some? && published.value.PubOpus? ==> r.opus == logs.opus + [published.value.audio]
    ensures published.Some? && published.value.PubIfData? ==> r.ifData == logs.ifData + [published.value.ifData]
    ensures published.Some? && published.value.PubMeter? ==> r.meter == logs.meter + [published.value.meter]
  {
    match published
    case None => logs
    case Some(PubFFT(x)) => logs.(fft := logs.fft + [x])
    case Some(PubOpus(x)) => logs.(opus := logs.opus + [x])
    case Some(PubIfData(x)) => logs.(ifData := logs.ifData + [x])
    case Some(PubMeter(x)) => logs.(meter := logs.meter + [x])
  }

  /** A sink that is not bound never receives anything, whatever the packet. */
  lemma UnboundSinkReceivesNothing(logs: SinkLogs, data: RadioData, bound: set<Sink>, dec: Decoders, s: Sink)
    requires OpusSliceInBounds(data, bound)
    requires s !in bound
    ensures SameLog(Deliver(logs, Dispatch(data, bound, dec).published), logs, s)
  {
  }

  /** The waterfall sink never receives anything: its tiles are decoded and dropped. */
  lemma WaterfallNeverPublished(logs: SinkLogs, data: RadioData, bound: set<Sink>, dec: Decoders)
    requires OpusSliceInBounds(data, bound)
    ensures Deliver(logs, Dispatch(data, bound, dec).published).waterfall == logs.waterfall
  {
  }
}
