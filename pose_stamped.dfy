/**
 * geometry_msgs/PoseStamped: a nested header and a nested pose, exchanged as
 * the JSON object { "header": <header object>, "pose": <pose object> }.
 *
 * The header file declares the message twice, once as
 * FROSBridgeMsgGeometrymsgsPoseStamped and once as geometry_msgs::PoseStamped,
 * with the same code; the class below models both. The header and pose types
 * are parameters `H` and `P`, with their codecs given as values.
 */
module PoseStampedMsg {
  import opened Wrappers
  import opened JsonValue
  import opened NestedCodec

  const TypeTag: string := "geometry_msgs/PoseStamped"

  /** The abstract value of a decoded message. */
  datatype Fields<H, P> = Fields(header: H, pose: P)

  /** What FromJson decodes: both nested messages, or failure if either fails. */
  function DecodeFields<H, P>(hc: Codec<H>, pc: Codec<P>, obj: JsonObject): (r: Option<Fields<H, P>>)
    ensures r.Some? <==> DecodeNested(hc, obj, "header").Some? && DecodeNested(pc, obj, "pose").Some?
    ensures r.Some? ==>
      r.value.header == DecodeNested(hc, obj, "header").value && r.value.pose == DecodeNested(pc, obj, "pose").value
  {
    match DecodeNested(hc, obj, "header")
    case None => None
    case Some(h) =>
      match DecodeNested(pc, obj, "pose")
      case None => None
      case Some(p) => Some(Fields(h, p))
  }

  const RenderPrefix: string := "PoseStamped { header = "
  const RenderMiddle: string := ", pose = "
  const RenderSuffix: string := " } "

  class PoseStamped<H(!new), P(!new)> {
    /** The codecs of the nested header and pose types. */
    const headerCodec: Codec<H>
    const poseCodec: Codec<P>
    /** The message type tag inherited from the message base class. */
    var msgType: string
    var header: H
    var pose: P

    /** Default construction: the type tag and default nested messages. */
    constructor Default(hc: Codec<H>, pc: Codec<P>)
      ensures headerCodec == hc && poseCodec == pc
      ensures msgType == TypeTag
      ensures header == hc.default && pose == pc.default
    {
      headerCodec, poseCodec := hc, pc;
      msgType := TypeTag;
      header, pose := hc.default, pc.default;
    }

    /** Value construction: the type tag and the given nested messages. */
    constructor (hc: Codec<H>, pc: Codec<P>, inHeader: H, inPose: P)
      ensures headerCodec == hc && poseCodec == pc
      ensures msgType == TypeTag
      ensures header == inHeader && pose == inPose
    {
      headerCodec, poseCodec := hc, pc;
      msgType := TypeTag;
      header, pose := inHeader, inPose;
    }

    function GetHeader(): (h: H)
      reads this
      ensures h == header
    {
      header
    }

    function GetPose(): (p: P)
      reads this
      ensures p == pose
    {
      pose
    }

    method SetHeader(inHeader: H)
      modifies this
      ensures GetHeader() == inHeader
      ensures GetPose() == old(GetPose()) && msgType == old(msgType)
    {
      header := inHeader;
    }

    method SetPose(inPose: P)
      modifies this
      ensures GetPose() == inPose
      ensures GetHeader() == old(GetHeader()) && msgType == old(msgType)
    {
      pose := inPose;
    }

    /**
     * Decodes "header", then "pose". A failed lookup or nested decode makes
     * `ok` false; a header decoded before a failing pose stays assigned.
     */
    method FromJson(obj: JsonObject) returns (ok: bool)
      modifies this
      ensures msgType == old(msgType)
      ensures ok <==> DecodeFields(headerCodec, poseCodec, obj).Some?
      ensures ok ==> Fields(header, pose) == DecodeFields(headerCodec, poseCodec, obj).value
      ensures DecodeNested(headerCodec, obj, "header").Some? ==> header == DecodeNested(headerCodec, obj, "header").value
      ensures DecodeNested(headerCodec, obj, "header").None? ==> header == old(header) && pose == old(pose)
      ensures DecodeNested(headerCodec, obj, "header").Some? && DecodeNested(poseCodec, obj, "pose").None? ==>
        pose == old(pose)
    {
      var h := DecodeNested(headerCodec, obj, "header");
      if h.None? {
        return false;
      }
      header := h.value;
      var p := DecodeNested(poseCodec, obj, "pose");
      if p.None? {
        return false;
      }
      pose := p.value;
      ok := true;
    }

    /** Default construction followed by FromJson. */
    static method GetFromJson(hc: Codec<H>, pc: Codec<P>, obj: JsonObject)
      returns (m: PoseStamped<H, P>, ok: bool)
      ensures fresh(m)
      ensures m.headerCodec == hc && m.poseCodec == pc && m.msgType == TypeTag
      ensures ok <==> DecodeFields(hc, pc, obj).Some?
      ensures ok ==> Fields(m.header, m.pose) == DecodeFields(hc, pc, obj).value
      ensures DecodeNested(hc, obj, "header").None? ==> m.header == hc.default && m.pose == pc.default
      ensures DecodeNested(hc, obj, "header").Some? && DecodeNested(pc, obj, "pose").None? ==>
        m.header == DecodeNested(hc, obj, "header").value && m.pose == pc.default
    {
      m := new PoseStamped.Default(hc, pc);
      ok := m.FromJson(obj);
    }

    /** An object with exactly the two nested encodings, under "header" and "pose". */
    function ToJsonObject(): (obj: JsonObject)
      reads this
      ensures obj.Keys == {"header", "pose"}
      ensures GetObjectField(obj, "header") == Some(headerCodec.toJson(header))
      ensures GetObjectField(obj, "pose") == Some(poseCodec.toJson(pose))
    {
      map[]["header" := Object(headerCodec.toJson(header))]["pose" := Object(poseCodec.toJson(pose))]
    }

    /**
     * "PoseStamped { header = <header>, pose = <pose> } ": the two nested
     * renderings, in that order, between fixed separators.
     */
    function ToString(): (s: string)
      reads this
      ensures var hs, ps := headerCodec.render(header), poseCodec.render(pose);
        var i := |RenderPrefix| + |hs|;
        var j := i + |RenderMiddle| + |ps|;
        && |s| == j + |RenderSuffix|
        && s[..|RenderPrefix|] == RenderPrefix
        && s[|RenderPrefix|..i] == hs
        && s[i..i + |RenderMiddle|] == RenderMiddle
        && s[i + |RenderMiddle|..j] == ps
        && s[j..] == RenderSuffix
    {
      RenderPrefix + headerCodec.render(header) + RenderMiddle + poseCodec.render(pose) + RenderSuffix
    }
  }

  /** Decoding ToJsonObject gives back the header and the pose, if those round-trip. */
  lemma RoundTrip<H(!new), P(!new)>(m: PoseStamped<H, P>)
    requires RoundTrips(m.headerCodec) && RoundTrips(m.poseCodec)
    ensures DecodeFields(m.headerCodec, m.poseCodec, m.ToJsonObject()) == Some(Fields(m.header, m.pose))
  {
  }
}
