# UROSBridge message codec and subscriber entry

A Dafny model of the message codec layer of UROSBridge, the plugin that lets
an Unreal Engine application talk to a ROS network through a rosbridge
gateway using JSON. Two concrete message types are modelled:

- `geometry_msgs/PoseWithCovariance`: a nested pose and a covariance matrix
  linearised to doubles. Its decoder insists on exactly 36 entries.
- `geometry_msgs/PoseStamped`: a nested header and a nested pose.

Besides these, the model covers the subscriber entry that incoming frames are
dispatched to.

Each message header declares the class twice, once with an `F` prefix and
once inside `namespace geometry_msgs`. The two copies have the same code. The
only difference is that `covariance` is public in the `F` version and
`Covariance` is private in the namespace version. One Dafny class models both.

Files:

- `wrappers.dfy`: `Option`.
- `json_value.dfy`: the JSON value, plus `GetObjectField`, `GetArrayField`
  and `AsNumber` of the JSON object library, written as lookups that can fail.
- `nested_codec.dfy`: `Codec<T>`, the contract of a nested message type.
  It holds the default value, `ToJsonObject`, `GetFromJson` and `ToString`.
  `DecodeNested` decodes a nested field, and `RoundTrips` states the
  round-trip law for such a codec.
- `pose_with_covariance.dfy`, `pose_stamped.dfy`: one class per message.
  Fields are updated in place by the setters and by `FromJson`. Beside each
  class are the functions that specify its decoding and encoding, and the
  lemmas about them.
- `subscriber.dfy`: the subscriber entry.

Design decisions:

- Pose and header types. `geometry_msgs/Pose` and `std_msgs/Header` are not
  part of this model. A message that contains one is generic in its type, and
  receives the nested type's codec as a constant field. Every round-trip
  lemma takes the nested codec's round trip as a hypothesis (`RoundTrips`).
- The `check`. In builds where Unreal's assertion macros are compiled in,
  the source's `check(covariance.Num() == 36)` aborts the program. In
  shipping builds it does nothing. The model describes checked builds, where
  a wrong length is a decode failure: `FromJson` returns `ok == false`, and
  the specification function `DecodeFields` returns `None`.
- Field lookups. A missing `"pose"`, `"header"` or `"covariance"` field, or a
  field of the wrong kind, is also a decode failure. So is a non-number in the
  covariance array. These failures carry no error kind.
- Partial updates. `FromJson` assigns fields in the source's order: pose
  first, then covariance (or header first, then pose). A failure later on
  leaves the earlier assignments in place. The contracts of both `FromJson`
  methods give the new state on every failure path. A failed pose decode
  changes nothing. A missing covariance array leaves it empty. A non-number
  element leaves the numbers read before it.
- Decode failures. A failed decode can leave earlier fields assigned, and
  failures carry no error kind. The model follows the code.
- 36 is not a class invariant. The value constructor and `SetCovariance`
  accept any length. `OtherLengthsDoNotRoundTrip` proves that a message
  holding another length encodes to JSON that its own decoder rejects.
- Subscriber. `Type` and `Topic` are private and have no setter, so they are
  Dafny `const` fields. `ParseMessage` and `Callback` are pure virtual in the
  source. A subscriber is therefore given its parser and the effect of its
  callback on the subscriber's own state. The parser takes that state and
  the payload. `ParseMessage` is a function that reads the subscriber, so like
  the `const` method it may read the state but cannot change it.

## Model

| member | source | states |
|---|---|---|
| `PoseWithCovarianceMsg.NumberArray` | Source/UROSBridge/Public/geometry_msgs/PoseWithCovariance.h:79-81 | the covariance array has one JSON number per entry, with the same length and order |
| `PoseWithCovarianceMsg.Numbers` | Source/UROSBridge/Public/geometry_msgs/PoseWithCovariance.h:51-53 | reading the array succeeds iff every element is a number; the result has the array's length and holds its numbers in order |
| `PoseWithCovarianceMsg.DecodeCovariance` | Source/UROSBridge/Public/geometry_msgs/PoseWithCovariance.h:51-53 | reading the covariance succeeds iff "covariance" holds an array whose elements are all numbers; the result has the array's length and holds its numbers in order |
| `PoseWithCovarianceMsg.DecodeFields` | Source/UROSBridge/Public/geometry_msgs/PoseWithCovariance.h:48-56 | decoding succeeds iff the pose decodes, the covariance array is all numbers and it has exactly 36 elements; the result holds the decoded pose and the array's numbers |
| `PoseWithCovarianceMsg.EncodeFields` | Source/UROSBridge/Public/geometry_msgs/PoseWithCovariance.h:76-86 | the encoding has exactly the fields "pose" (the nested pose encoding) and "covariance" (an array of numbers with the covariance's length and order) |
| `PoseWithCovarianceMsg.NumbersOfNumberArray` | Source/UROSBridge/Public/geometry_msgs/PoseWithCovariance.h:51-53 | reading back the encoded covariance array gives the covariance unchanged |
| `PoseWithCovarianceMsg.RoundTrip` | Source/UROSBridge/Public/geometry_msgs/PoseWithCovariance.h:48-86 | for a 36-entry covariance and a round-tripping pose codec, decoding the encoding gives back the same pose and covariance |
| `PoseWithCovarianceMsg.DecodeSucceedsIffLength36` | Source/UROSBridge/Public/geometry_msgs/PoseWithCovariance.h:55 | with a decodable pose and an all-number array of length n, decoding succeeds iff n is 36 |
| `PoseWithCovarianceMsg.OtherLengthsDoNotRoundTrip` | Source/UROSBridge/Public/geometry_msgs/PoseWithCovariance.h:19-24 | a message built with a covariance of any length other than 36 encodes to JSON that fails to decode |
| `PoseWithCovarianceMsg.CovarianceItems` | Source/UROSBridge/Public/geometry_msgs/PoseWithCovariance.h:67-69 | every entry adds at least its ", " separator, so the rendering has at least two characters per entry and is empty exactly when there are no entries |
| `PoseWithCovarianceMsg.CovarianceItemsAppend` | Source/UROSBridge/Public/geometry_msgs/PoseWithCovariance.h:67-70 | the covariance rendering is built entry by entry: rendering a + b is rendering a followed by rendering b |
| `PoseWithCovarianceMsg.PoseWithCovariance.Default` | Source/UROSBridge/Public/geometry_msgs/PoseWithCovariance.h:13-17 | the type tag is "geometry_msgs/PoseWithCovariance", the pose is the default pose and the covariance is exactly 36 zeros |
| `PoseWithCovarianceMsg.PoseWithCovariance.constructor` | Source/UROSBridge/Public/geometry_msgs/PoseWithCovariance.h:19-24 | the type tag is set and the pose and covariance are stored unchanged, with no length check |
| `PoseWithCovarianceMsg.PoseWithCovariance.GetPose` | Source/UROSBridge/Public/geometry_msgs/PoseWithCovariance.h:28-31 | returns the stored pose; as a function it changes nothing (const) |
| `PoseWithCovarianceMsg.PoseWithCovariance.GetCovariance` | Source/UROSBridge/Public/geometry_msgs/PoseWithCovariance.h:33-36 | returns the stored covariance, of whatever length; as a function it changes nothing (const) |
| `PoseWithCovarianceMsg.PoseWithCovariance.SetPose` | Source/UROSBridge/Public/geometry_msgs/PoseWithCovariance.h:28-41 | GetPose returns the new pose; the covariance and type tag are unchanged |
| `PoseWithCovarianceMsg.PoseWithCovariance.SetCovariance` | Source/UROSBridge/Public/geometry_msgs/PoseWithCovariance.h:43-46 | GetCovariance returns the new covariance, of any length; the pose and type tag are unchanged |
| `PoseWithCovarianceMsg.PoseWithCovariance.FromJson` | Source/UROSBridge/Public/geometry_msgs/PoseWithCovariance.h:48-56 | ok iff DecodeFields succeeds, and then the fields equal the decoded ones; if the pose fails nothing changes; a decoded pose is stored even if a later step fails; the covariance is emptied (and stays empty if there is no array) and refilled from the array, so nothing of the old one survives; it holds the numbers before the first non-number, and all of them even when the length check then fails |
| `PoseWithCovarianceMsg.PoseWithCovariance.GetFromJson` | Source/UROSBridge/Public/geometry_msgs/PoseWithCovariance.h:58-63 | a fresh message with the PoseWithCovariance type tag, decoded as FromJson decodes on every path with the defaults as the old state: a failed pose leaves the default pose and 36 zeros; otherwise the decoded pose and the covariance as FromJson leaves it (empty, the numbers before the first non-number, or all of them) |
| `PoseWithCovarianceMsg.PoseWithCovariance.ToJsonObject` | Source/UROSBridge/Public/geometry_msgs/PoseWithCovariance.h:76-86 | the object built by the loop is the encoding EncodeFields specifies |
| `PoseWithCovarianceMsg.PoseWithCovariance.ToString` | Source/UROSBridge/Public/geometry_msgs/PoseWithCovariance.h:65-74 | the rendering is the pose rendering followed by the covariance entries, each formatted and followed by ", ", between "[ " and " ]" |
| `NestedCodec.DecodeNested` | Source/UROSBridge/Public/geometry_msgs/PoseStamped.h:48-49 | a nested message (the header or pose here, the pose at PoseWithCovariance.h:49) is decoded only from a field of that name that holds an object, and it is the nested decoder's result on that object |
| `PoseStampedMsg.DecodeFields` | Source/UROSBridge/Public/geometry_msgs/PoseStamped.h:47-50 | decoding succeeds iff both the "header" and the "pose" field decode, and then gives both decoded values |
| `PoseStampedMsg.PoseStamped.Default` | Source/UROSBridge/Public/geometry_msgs/PoseStamped.h:13-16 | the type tag is "geometry_msgs/PoseStamped" and the nested messages are the defaults |
| `PoseStampedMsg.PoseStamped.constructor` | Source/UROSBridge/Public/geometry_msgs/PoseStamped.h:18-23 | the type tag is "geometry_msgs/PoseStamped" and the header and pose are stored unchanged |
| `PoseStampedMsg.PoseStamped.GetHeader` | Source/UROSBridge/Public/geometry_msgs/PoseStamped.h:27-30 | returns the stored header; as a function it changes nothing (const) |
| `PoseStampedMsg.PoseStamped.GetPose` | Source/UROSBridge/Public/geometry_msgs/PoseStamped.h:32-35 | returns the stored pose; as a function it changes nothing (const) |
| `PoseStampedMsg.PoseStamped.SetHeader` | Source/UROSBridge/Public/geometry_msgs/PoseStamped.h:27-40 | GetHeader returns the new header; the pose and type tag are unchanged |
| `PoseStampedMsg.PoseStamped.SetPose` | Source/UROSBridge/Public/geometry_msgs/PoseStamped.h:42-45 | GetPose returns the new pose; the header and type tag are unchanged |
| `PoseStampedMsg.PoseStamped.FromJson` | Source/UROSBridge/Public/geometry_msgs/PoseStamped.h:47-50 | ok iff DecodeFields succeeds, and then the header and pose are the decoded ones; a decoded header is stored even if the pose then fails, and the pose is then unchanged; if the header fails, nothing changes |
| `PoseStampedMsg.PoseStamped.GetFromJson` | Source/UROSBridge/Public/geometry_msgs/PoseStamped.h:52-57 | a fresh message with the PoseStamped type tag, decoded as FromJson decodes on every path with the defaults as the old state: a failed header leaves both defaults; a failed pose leaves the decoded header and the default pose |
| `PoseStampedMsg.PoseStamped.ToJsonObject` | Source/UROSBridge/Public/geometry_msgs/PoseStamped.h:65-70 | an object with exactly the fields "header" and "pose", holding the nested encodings |
| `PoseStampedMsg.PoseStamped.ToString` | Source/UROSBridge/Public/geometry_msgs/PoseStamped.h:59-63 | the rendering is "PoseStamped { header = ", the header rendering, ", pose = ", the pose rendering and " } ", at the stated positions |
| `PoseStampedMsg.RoundTrip` | Source/UROSBridge/Public/geometry_msgs/PoseStamped.h:47-70 | if the header and pose codecs round-trip, decoding ToJsonObject gives back the same header and pose |
| `ROSBridgeSubscriber.Subscriber.constructor` | Source/UROSBridge/Public/ROSBridgeSubscriber.h:16-33 | GetMessageType and GetMessageTopic return exactly the type and topic passed in; these are constants, so no later call changes them |
| `ROSBridgeSubscriber.Subscriber.GetMessageType` | Source/UROSBridge/Public/ROSBridgeSubscriber.h:25-28 | returns the constant type given to the constructor; as a function it changes nothing (const) |
| `ROSBridgeSubscriber.Subscriber.GetMessageTopic` | Source/UROSBridge/Public/ROSBridgeSubscriber.h:30-33 | returns the constant topic given to the constructor; as a function it changes nothing (const) |
| `ROSBridgeSubscriber.Subscriber.ParseMessage` | Source/UROSBridge/Public/ROSBridgeSubscriber.h:35 | a function, so it cannot modify the subscriber (const); its result is the subclass's parser applied to the subscriber's current state and the payload |
| `ROSBridgeSubscriber.Subscriber.Callback` | Source/UROSBridge/Public/ROSBridgeSubscriber.h:37 | the callback changes only the subscriber's own state, as its handler says |

## Left out

- `ToYamlString` (both messages) is left out. It hands the encoding to the host library's JSON writer, which is not part of this model.
- float formatting: `FString::SanitizeFloat` is a parameter `fmt` of `PoseWithCovariance.ToString`. Only the brackets and separators around its output are modelled.
- doubles are modelled as `real`. The codecs only copy them, so NaN, infinities and rounding play no part.
- JSON library behaviour: what `GetObjectField`, `GetArrayField` and `AsNumber` do on a missing field or a value of the wrong kind (logging, default values) is not modelled. Each case is a decode failure with no error kind.
- `PoseWithCovarianceMsg.PoseWithCovariance.FromJson` describes builds with assertion checks enabled. In a shipping build `check` is compiled out, and a covariance of any length is accepted. The abort of a failed check is modelled as `ok == false`, so the model does not capture that the process stops.
- JSON object field order is not modelled, because objects are maps.
- `geometry_msgs/Pose` and `std_msgs/Header` are not part of this model. Their codecs are parameters, and their round trip is a hypothesis.
- shared pointers, `MakeShareable` and the virtual destructors are left out. They manage ownership and have no observable behaviour here.
- `ROSBridgeSubscriber.Subscriber.GetMessageType` and `GetMessageTopic` model the base class only. The source declares both getters virtual, so a subclass could override them; such overrides are not modelled, and the constructor's promise about the getters describes the base class.
- the subscriber registry, the dispatcher, the websocket transport and threading are not part of this model. Only the subscriber entry is.
- `ParseMessage` and `Callback` are abstract in the source. They are modelled by the parser and handler a subscriber is built with, not by any particular subclass.
- `Classes/MyPluginObject.h` is left out. It is disabled by `#if 0`.
