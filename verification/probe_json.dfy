/** The probe-metadata document written by `write_probe_json` and read by
    `read_probe_json`. The JSON text itself is produced and parsed by a
    library; here a document is the object it denotes, a map from key to
    value.
 */
module ProbeJson {
  import opened Wrappers

  /** The values a probe document holds: number arrays and plain integers. */
  datatype JsonValue = Numbers(values: seq<real>) | Integer(n: int)

  /** The eight fields the writer is given. */
  datatype ProbeRecord = ProbeRecord(
    channels: seq<real>,
    offset: seq<real>,
    scaling: seq<real>,
    mask: seq<real>,
    surfaceChannel: int,
    airChannel: int,
    verticalPos: seq<real>,
    horizontalPos: seq<real>)

  /** The five values the reader returns, in its return order. The source
      does not check their types: `np.array` accepts whatever is stored. */
  datatype ProbeCalibration = ProbeCalibration(
    mask: JsonValue,
    offset: JsonValue,
    scaling: JsonValue,
    surfaceChannel: JsonValue,
    airChannel: JsonValue)

  /** `write_probe_json`: one key per field, under the field's own name. */
  function WriteProbeJson(p: ProbeRecord): (doc: map<string, JsonValue>)
    ensures doc.Keys == {"channel", "offset", "scaling", "mask", "surface_channel",
                         "air_channel", "vertical_pos", "horizontal_pos"}
  {
    map["channel" := Numbers(p.channels),
        "offset" := Numbers(p.offset),
        "scaling" := Numbers(p.scaling),
        "mask" := Numbers(p.mask),
        "surface_channel" := Integer(p.surfaceChannel),
        "air_channel" := Integer(p.airChannel),
        "vertical_pos" := Numbers(p.verticalPos),
        "horizontal_pos" := Numbers(p.horizontalPos)]
  }

  function Field(doc: map<string, JsonValue>, key: string): (r: Result<JsonValue>)
    ensures r.Ok? <==> key in doc
    ensures r.Ok? ==> r.value == doc[key]
    ensures r.Err? ==> r.error == KeyError(key)
  {
    if key in doc then Ok(doc[key]) else Err(KeyError(key))
  }

  /** `read_probe_json`: the five calibration values, looked up in the order
      the source reads them (scaling, mask, offset, surface_channel,
      air_channel); the first missing key is a KeyError. */
  function ReadProbeJson(doc: map<string, JsonValue>): (r: Result<ProbeCalibration>)
    ensures r.Ok? <==> forall key :: key in ReadKeys ==> key in doc
    ensures r.Err? ==> r.error.KeyError? && r.error.key in ReadKeys && r.error.key !in doc
    ensures r.Ok? ==> r.value == ProbeCalibration(doc["mask"], doc["offset"], doc["scaling"],
                                                  doc["surface_channel"], doc["air_channel"])
  {
    var scaling :- Field(doc, "scaling");
    var mask :- Field(doc, "mask");
    var offset :- Field(doc, "offset");
    var surfaceChannel :- Field(doc, "surface_channel");
    var airChannel :- Field(doc, "air_channel");
    Ok(ProbeCalibration(mask, offset, scaling, surfaceChannel, airChannel))
  }

  const ReadKeys: set<string> := {"scaling", "mask", "offset", "surface_channel", "air_channel"}

  /** Reading a written document gives back exactly the five calibration
      fields of the record; the channel list and positions are not read. */
  lemma ProbeRoundTrip(p: ProbeRecord)
    ensures ReadProbeJson(WriteProbeJson(p))
            == Ok(ProbeCalibration(Numbers(p.mask), Numbers(p.offset), Numbers(p.scaling),
                                   Integer(p.surfaceChannel), Integer(p.airChannel)))
  {
    var doc := WriteProbeJson(p);
    assert ReadKeys <= doc.Keys;
  }

  /** The reader ignores the fields it does not return: records that differ
      only in channel list or positions read back the same. */
  lemma ProbeReadIgnoresGeometry(p: ProbeRecord, q: ProbeRecord)
    requires p.mask == q.mask && p.offset == q.offset && p.scaling == q.scaling
    requires p.surfaceChannel == q.surfaceChannel && p.airChannel == q.airChannel
    ensures ReadProbeJson(WriteProbeJson(p)) == ReadProbeJson(WriteProbeJson(q))
  {
    ProbeRoundTrip(p);
    ProbeRoundTrip(q);
  }
}
