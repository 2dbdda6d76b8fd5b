/**
 * The two object registries (`Panadapters`, `IqStreams`) and how one parsed
 * patch is merged into them (`parsePanAdapterParams`, `parseDaxIqStatusParams`).
 * Each Go `sync.Map` is a sequential map from the identifier string to the
 * object's state.
 */
module Registry {
  import opened GoStrings

  /** Go's `int32`. */
  newtype Int32 = x: int | -0x8000_0000 <= x < 0x8000_0000

  /** A panadapter: its identifier and its centre frequency scaled by 10^6. */
  datatype Panadapter = Panadapter(id: string, center: Int32)

  /** A DAX IQ stream: its numeric identifier, its panadapter and its sample rate. */
  datatype IqStream = IqStream(id: int, pan: string, rate: int)

  /** The state a fresh panadapter entry starts from: Go's zero value with `Id` set. */
  function NewPanadapter(id: string): Panadapter
  {
    Panadapter(id, 0)
  }

  /** The state a fresh IQ stream entry starts from: Go's zero value with `Id = Atoi(id)`. */
  function NewIqStream(id: string): IqStream
  {
    IqStream(Atoi(id), "", 0)
  }

  /**
   * `sync.Map.LoadOrStore(key, value)`: the map afterwards, the value now
   * stored under `key`, and whether it was already there.
   */
  function LoadOrStore<V>(m: map<string, V>, key: string, value: V): (r: (map<string, V>, V, bool))
    ensures r.2 <==> key in m
    ensures r.0.Keys == m.Keys + {key}
    ensures r.0[key] == r.1
    ensures forall k :: k in m ==> r.0[k] == m[k]
    ensures !r.2 ==> r.1 == value
  {
    if key in m then (m, m[key], true) else (m[key := value], value, false)
  }

  /**
   * The panadapter registry after a patch for `id` with attributes `attrs`.
   * `centerOf` stands for `int32(strconv.ParseFloat(v, 64) * 1000000)`.
   */
  function PatchPanadapter(reg: map<string, Panadapter>, id: string, attrs: map<string, string>,
                           centerOf: string -> Int32): (r: map<string, Panadapter>)
    ensures r.Keys == reg.Keys + {id}
    ensures forall k :: k in reg && k != id ==> r[k] == reg[k]
    ensures r[id].id == if id in reg then reg[id].id else id
    ensures r[id].center == if "center" in attrs then centerOf(attrs["center"])
                            else if id in reg then reg[id].center else 0
  {
    var (stored, actual, loaded) := LoadOrStore(reg, id, NewPanadapter(id));
    if "center" in attrs then stored[id := actual.(center := centerOf(attrs["center"]))] else stored
  }

  /** The IQ stream registry after a patch for `id` with attributes `attrs`. */
  function PatchIqStream(reg: map<string, IqStream>, id: string, attrs: map<string, string>): (r: map<string, IqStream>)
    ensures r.Keys == reg.Keys + {id}
    ensures forall k :: k in reg && k != id ==> r[k] == reg[k]
    ensures r[id].id == if id in reg then reg[id].id else Atoi(id)
    ensures r[id].pan == if "pan" in attrs then attrs["pan"] else if id in reg then reg[id].pan else ""
    ensures r[id].rate == if "rate" in attrs then Atoi(attrs["rate"]) else if id in reg then reg[id].rate else 0
  {
    var (stored, actual, loaded) := LoadOrStore(reg, id, NewIqStream(id));
    var withPan := if "pan" in attrs then actual.(pan := attrs["pan"]) else actual;
    var withRate := if "rate" in attrs then withPan.(rate := Atoi(attrs["rate"])) else withPan;
    if "pan" in attrs || "rate" in attrs then stored[id := withRate] else stored
  }

  /** A patch with no recognised attribute leaves a known panadapter exactly as it was. */
  lemma PanadapterUnrecognisedIsNoOp(reg: map<string, Panadapter>, id: string, attrs: map<string, string>,
                                     centerOf: string -> Int32)
    requires id in reg && "center" !in attrs
    ensures PatchPanadapter(reg, id, attrs, centerOf) == reg
  {
  }

  /** A patch with no recognised attribute leaves a known IQ stream exactly as it was. */
  lemma IqStreamUnrecognisedIsNoOp(reg: map<string, IqStream>, id: string, attrs: map<string, string>)
    requires id in reg && "pan" !in attrs && "rate" !in attrs
    ensures PatchIqStream(reg, id, attrs) == reg
  {
  }

  /** Applying the same panadapter patch twice is the same as applying it once. */
  lemma PanadapterPatchIdempotent(reg: map<string, Panadapter>, id: string, attrs: map<string, string>,
                                  centerOf: string -> Int32)
    ensures var once := PatchPanadapter(reg, id, attrs, centerOf);
            PatchPanadapter(once, id, attrs, centerOf) == once
  {
    var once := PatchPanadapter(reg, id, attrs, centerOf);
    var twice := PatchPanadapter(once, id, attrs, centerOf);
    assert twice[id] == once[id];
  }

  /** Applying the same IQ stream patch twice is the same as applying it once. */
  lemma IqStreamPatchIdempotent(reg: map<string, IqStream>, id: string, attrs: map<string, string>)
    ensures var once := PatchIqStream(reg, id, attrs);
            PatchIqStream(once, id, attrs) == once
  {
    var once := PatchIqStream(reg, id, attrs);
    var twice := PatchIqStream(once, id, attrs);
    assert twice[id] == once[id];
  }
}
