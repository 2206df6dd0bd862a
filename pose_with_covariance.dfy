/**
 * geometry_msgs/PoseWithCovariance: a nested pose and a covariance matrix
 * linearised to a sequence of doubles, exchanged as the JSON object
 * { "pose": <pose object>, "covariance": [ <number>, ... ] }.
 *
 * The header file declares the message twice, once as
 * FROSBridgeMsgGeometrymsgsPoseWithCovariance (covariance public) and once
 * as geometry_msgs::PoseWithCovariance (Covariance private), with the same
 * code; the class below models both. The pose type is a parameter `P`, with
 * its codec given as a `Codec<P>`.
 */
module PoseWithCovarianceMsg {
  import opened Wrappers
  import opened JsonValue
  import opened NestedCodec

  const TypeTag: string := "geometry_msgs/PoseWithCovariance"

  /** The length the decoder insists on: a 6x6 matrix, row-major. */
  const CovarianceSize: nat := 36

  /** The abstract value of a decoded message. */
  datatype Fields<P> = Fields(pose: P, covariance: seq<real>)

  /** The covariance array of ToJsonObject: one JSON number per entry, in order. */
  function NumberArray(values: seq<real>): (items: seq<Json>)
    ensures |items| == |values|
    ensures forall i :: 0 <= i < |values| ==> items[i] == Number(values[i])
  {
    if values == [] then []
    else NumberArray(values[..|values| - 1]) + [Number(values[|values| - 1])]
  }

  /** The covariance FromJson collects: AsNumber of every element, in order. */
  function Numbers(items: seq<Json>): (r: Option<seq<real>>)
    ensures r.Some? <==> forall i :: 0 <= i < |items| ==> items[i].Number?
    ensures r.Some? ==> |r.value| == |items|
    ensures r.Some? ==> forall i :: 0 <= i < |items| ==> items[i] == Number(r.value[i])
  {
    if items == [] then Some([])
    else
      match Numbers(items[..|items| - 1])
      case None => None
      case Some(prefix) =>
        match AsNumber(items[|items| - 1])
        case None => None
        case Some(x) => Some(prefix + [x])
  }

  /** The numbers FromJson reads from the "covariance" field, before the length check. */
  function DecodeCovariance(obj: JsonObject): (r: Option<seq<real>>)
    ensures r.Some? <==>
      "covariance" in obj && obj["covariance"].Array?
      && forall i :: 0 <= i < |obj["covariance"].items| ==> obj["covariance"].items[i].Number?
    ensures r.Some? ==> |r.value| == |obj["covariance"].items|
    ensures r.Some? ==>
      forall i :: 0 <= i < |r.value| ==> obj["covariance"].items[i] == Number(r.value[i])
  {
    match GetArrayField(obj, "covariance")
    case None => None
    case Some(items) => Numbers(items)
  }

  /** What FromJson decodes, including the length check. */
  function DecodeFields<P>(pc: Codec<P>, obj: JsonObject): (r: Option<Fields<P>>)
    ensures r.Some? <==>
      DecodeNested(pc, obj, "pose").Some? && DecodeCovariance(obj).Some?
      && |GetArrayField(obj, "covariance").value| == CovarianceSize
    ensures r.Some? ==> |r.value.covariance| == CovarianceSize
    ensures r.Some? ==> r.value.pose == DecodeNested(pc, obj, "pose").value
    ensures r.Some? ==>
      forall i :: 0 <= i < CovarianceSize ==>
        GetArrayField(obj, "covariance").value[i] == Number(r.value.covariance[i])
  {
    match DecodeNested(pc, obj, "pose")
    case None => None
    case Some(p) =>
      match DecodeCovariance(obj)
      case None => None
      case Some(cov) => if |cov| == CovarianceSize then Some(Fields(p, cov)) else None
  }

  /** What ToJsonObject produces. */
  function EncodeFields<P>(pc: Codec<P>, pose: P, covariance: seq<real>): (obj: JsonObject)
    ensures obj.Keys == {"pose", "covariance"}
    ensures GetObjectField(obj, "pose") == Some(pc.toJson(pose))
    ensures GetArrayField(obj, "covariance").Some?
    ensures |GetArrayField(obj, "covariance").value| == |covariance|
    ensures forall i :: 0 <= i < |covariance| ==>
      GetArrayField(obj, "covariance").value[i] == Number(covariance[i])
  {
    map[]["pose" := Object(pc.toJson(pose))]["covariance" := Array(NumberArray(covariance))]
  }

  /** Reading the numbers back from the encoded array gives the original covariance. */
  lemma NumbersOfNumberArray(values: seq<real>)
    ensures Numbers(NumberArray(values)) == Some(values)
  {
    var r := Numbers(NumberArray(values));
    assert r.Some?;
    assert forall i :: 0 <= i < |values| ==> r.value[i] == values[i] by {
      forall i | 0 <= i < |values| ensures r.value[i] == values[i] {
        assert NumberArray(values)[i] == Number(r.value[i]);
      }
    }
    assert r.value == values;
  }

  /** Decoding the encoding of a 36-entry message gives back its pose and covariance. */
  lemma RoundTrip<P(!new)>(pc: Codec<P>, pose: P, covariance: seq<real>)
    requires RoundTrips(pc)
    requires |covariance| == CovarianceSize
    ensures DecodeFields(pc, EncodeFields(pc, pose, covariance)) == Some(Fields(pose, covariance))
  {
    var obj := EncodeFields(pc, pose, covariance);
    assert pc.fromJson(pc.toJson(pose)) == Some(pose);
    assert DecodeNested(pc, obj, "pose") == Some(pose);
    assert GetArrayField(obj, "covariance") == Some(NumberArray(covariance));
    NumbersOfNumberArray(covariance);
  }

  /**
   * The length check: given a decodable pose and an all-number covariance
   * array of length n, decoding succeeds exactly when n is 36.
   */
  lemma DecodeSucceedsIffLength36<P>(pc: Codec<P>, obj: JsonObject, items: seq<Json>)
    requires DecodeNested(pc, obj, "pose").Some?
    requires GetArrayField(obj, "covariance") == Some(items)
    requires forall i :: 0 <= i < |items| ==> items[i].Number?
    ensures DecodeFields(pc, obj).Some? <==> |items| == CovarianceSize
  {
  }

  /**
   * The value constructor and SetCovariance accept any length, so a message
   * whose covariance does not have 36 entries encodes to JSON that its own
   * decoder rejects.
   */
  lemma OtherLengthsDoNotRoundTrip<P>(pc: Codec<P>, pose: P, covariance: seq<real>)
    requires |covariance| != CovarianceSize
    ensures DecodeFields(pc, EncodeFields(pc, pose, covariance)) == None
  {
  }

  /** The covariance part of ToString: each entry as `fmt` renders it, followed by ", ". */
  function CovarianceItems(fmt: real -> string, values: seq<real>): (s: string)
    ensures |s| >= 2 * |values|
    ensures s == "" <==> values == []
  {
    if values == [] then ""
    else CovarianceItems(fmt, values[..|values| - 1]) + fmt(values[|values| - 1]) + ", "
  }

  /** The rendering is built entry by entry: splitting the entries splits the string. */
  lemma {:induction false} CovarianceItemsAppend(fmt: real -> string, a: seq<real>, b: seq<real>)
    ensures CovarianceItems(fmt, a + b) == CovarianceItems(fmt, a) + CovarianceItems(fmt, b)
    decreases |b|
  {
    if b == [] {
      assert a + b == a;
    } else {
      var n := |b| - 1;
      assert (a + b)[..|a + b| - 1] == a + b[..n];
      assert (a + b)[|a + b| - 1] == b[n];
      CovarianceItemsAppend(fmt, a, b[..n]);
    }
  }

  class PoseWithCovariance<P(!new)> {
    /** The codec of the nested pose type. */
    const poseCodec: Codec<P>
    /** The message type tag inherited from the message base class. */
    var msgType: string
    var pose: P
    var covariance: seq<real>

    /** Default construction: the type tag, a default pose and 36 zeros. */
    constructor Default(pc: Codec<P>)
      ensures poseCodec == pc
      ensures msgType == TypeTag
      ensures pose == pc.default
      ensures |covariance| == CovarianceSize
      ensures forall i :: 0 <= i < |covariance| ==> covariance[i] == 0.0
    {
      poseCodec := pc;
      msgType := TypeTag;
      pose := pc.default;
      covariance := seq(CovarianceSize, _ => 0.0);
    }

    /** Value construction: stores both arguments unchanged, whatever the covariance length. */
    constructor (pc: Codec<P>, inPose: P, inCovariance: seq<real>)
      ensures poseCodec == pc
      ensures msgType == TypeTag
      ensures pose == inPose && covariance == inCovariance
    {
      poseCodec := pc;
      msgType := TypeTag;
      pose := inPose;
      covariance := inCovariance;
    }

    function GetPose(): (p: P)
      reads this
      ensures p == pose
    {
      pose
    }

    function GetCovariance(): (c: seq<real>)
      reads this
      ensures c == covariance
    {
      covariance
    }

    method SetPose(inPose: P)
      modifies this
      ensures GetPose() == inPose
      ensures GetCovariance() == old(GetCovariance()) && msgType == old(msgType)
    {
      pose := inPose;
    }

    /** No length check: any covariance is stored as given. */
    method SetCovariance(inCovariance: seq<real>)
      modifies this
      ensures GetCovariance() == inCovariance
      ensures GetPose() == old(GetPose()) && msgType == old(msgType)
    {
      covariance := inCovariance;
    }

    /**
     * Reads "pose", then empties the covariance and refills it from the
     * "covariance" array, then checks that it has 36 entries. A failed
     * lookup or check makes `ok` false; what was assigned before it stays.
     * When an element is not a number, the covariance holds the numbers
     * before it.
     */
    method FromJson(obj: JsonObject) returns (ok: bool)
      modifies this
      ensures msgType == old(msgType)
      ensures ok <==> DecodeFields(poseCodec, obj).Some?
      ensures ok ==> Fields(pose, covariance) == DecodeFields(poseCodec, obj).value
      ensures DecodeNested(poseCodec, obj, "pose").Some? ==> pose == DecodeNested(poseCodec, obj, "pose").value
      ensures DecodeNested(poseCodec, obj, "pose").Some? && DecodeCovariance(obj).Some? ==>
        covariance == DecodeCovariance(obj).value
      ensures DecodeNested(poseCodec, obj, "pose").None? ==>
        pose == old(pose) && covariance == old(covariance)
      ensures DecodeNested(poseCodec, obj, "pose").Some? && GetArrayField(obj, "covariance").None? ==>
        covariance == []
      ensures DecodeNested(poseCodec, obj, "pose").Some? && GetArrayField(obj, "covariance").Some? ==>
        var items := GetArrayField(obj, "covariance").value;
        && |covariance| <= |items|
        && Numbers(items[..|covariance|]) == Some(covariance)
        && (|covariance| < |items| ==> !items[|covariance|].Number?)
    {
      var poseObj := GetObjectField(obj, "pose");
      if poseObj.None? {
        return false;
      }
      var decoded := poseCodec.fromJson(poseObj.value);
      if decoded.None? {
        return false;
      }
      pose := decoded.value;
      covariance := [];
      var arr := GetArrayField(obj, "covariance");
      if arr.None? {
        return false;
      }
      var items := arr.value;
      var i := 0;
      while i < |items|
        invariant 0 <= i <= |items|
        invariant Numbers(items[..i]) == Some(covariance) && |covariance| == i
        invariant pose == decoded.value && msgType == old(msgType)
      {
        var x := AsNumber(items[i]);
        if x.None? {
          return false;
        }
        assert items[..i + 1][..i] == items[..i];
        covariance := covariance + [x.value];
        i := i + 1;
      }
      assert items[..i] == items;
      ok := |covariance| == CovarianceSize;
    }

    /** Default construction followed by FromJson. */
    static method GetFromJson(pc: Codec<P>, obj: JsonObject) returns (m: PoseWithCovariance<P>, ok: bool)
      ensures fresh(m)
      ensures m.poseCodec == pc && m.msgType == TypeTag
      ensures ok <==> DecodeFields(pc, obj).Some?
      ensures ok ==> Fields(m.pose, m.covariance) == DecodeFields(pc, obj).value
      ensures DecodeNested(pc, obj, "pose").None? ==>
        m.pose == pc.default && m.covariance == seq(CovarianceSize, _ => 0.0)
      ensures DecodeNested(pc, obj, "pose").Some? ==> m.pose == DecodeNested(pc, obj, "pose").value
      ensures DecodeNested(pc, obj, "pose").Some? && DecodeCovariance(obj).Some? ==>
        m.covariance == DecodeCovariance(obj).value
      ensures DecodeNested(pc, obj, "pose").Some? && GetArrayField(obj, "covariance").None? ==>
        m.covariance == []
      ensures DecodeNested(pc, obj, "pose").Some? && GetArrayField(obj, "covariance").Some? ==>
        var items := GetArrayField(obj, "covariance").value;
        && |m.covariance| <= |items|
        && Numbers(items[..|m.covariance|]) == Some(m.covariance)
        && (|m.covariance| < |items| ==> !items[|m.covariance|].Number?)
    {
      m := new PoseWithCovariance.Default(pc);
      ok := m.FromJson(obj);
    }

    /** Builds the covariance array one number at a time, then sets both fields. */
    method ToJsonObject() returns (obj: JsonObject)
      ensures obj == EncodeFields(poseCodec, pose, covariance)
    {
      var covArray: seq<Json> := [];
      var i := 0;
      while i < |covariance|
        invariant 0 <= i <= |covariance|
        invariant covArray == NumberArray(covariance[..i])
      {
        assert covariance[..i + 1][..i] == covariance[..i];
        covArray := covArray + [Number(covariance[i])];
        i := i + 1;
      }
      assert covariance[..i] == covariance;
      obj := map[];
      obj := obj["pose" := Object(poseCodec.toJson(pose))];
      obj := obj["covariance" := Array(covArray)];
    }

    /**
     * The rendering "PoseWithCovariance { pose = <pose>, covariance = [ x, y, ...,  ] } ",
     * where `fmt` stands for the float formatting of the host library.
     */
    method ToString(fmt: real -> string) returns (s: string)
      ensures s == "PoseWithCovariance { pose = " + poseCodec.render(pose)
        + ", covariance = " + "[ " + CovarianceItems(fmt, covariance) + " ]" + " } "
    {
      var arrayString := "[ ";
      var i := 0;
      while i < |covariance|
        invariant 0 <= i <= |covariance|
        invariant arrayString == "[ " + CovarianceItems(fmt, covariance[..i])
      {
        assert covariance[..i + 1][..i] == covariance[..i];
        arrayString := arrayString + fmt(covariance[i]) + ", ";
        i := i + 1;
      }
      assert covariance[..i] == covariance;
      arrayString := arrayString + " ]";
      s := "PoseWithCovariance { pose = " + poseCodec.render(pose)
        + ", covariance = " + arrayString + " } ";
    }
  }
}
