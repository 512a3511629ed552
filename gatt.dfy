/**
 * The CoreBluetooth values the controller builds, receives and passes to
 * the peripheral manager, as plain data. The radio stack behind them is
 * abstract: a call to it is only recorded.
 */
module Gatt {
  import opened Wrappers

  newtype byte = x: int | 0 <= x < 256

  /** `Data`: a byte string. */
  type Bytes = seq<byte>

  /** A connected central, known only by an identity. */
  type CentralId = nat

  /** `CBManagerState`: the power and availability state of the adapter. */
  datatype AdapterState =
    | Unknown
    | Resetting
    | Unsupported
    | Unauthorized
    | PoweredOff
    | PoweredOn

  /** `CBCharacteristicProperties`. */
  datatype Property =
    | Broadcast
    | Read
    | WriteWithoutResponse
    | Write
    | Notify
    | Indicate
    | NotifyEncryptionRequired
    | IndicateEncryptionRequired

  /** `CBAttributePermissions`. */
  datatype Permission =
    | Readable
    | Writeable
    | ReadEncryptionRequired
    | WriteEncryptionRequired

  /** `CBMutableCharacteristic`: a uuid, property and permission flags, a static value or nil. */
  datatype Characteristic = Characteristic(
    uuid: string,
    properties: set<Property>,
    value: Option<Bytes>,
    permissions: set<Permission>)

  /** `CBMutableService`: a uuid, primary or secondary, and its characteristics. */
  datatype Service = Service(uuid: string, primary: bool, characteristics: seq<Characteristic>)

  /** The advertisement dictionary: service uuids and a local name. */
  datatype Advertisement = Advertisement(serviceUuids: seq<string>, localName: string)

  /** `CBATTRequest`: the characteristic it addresses and its value, if any. */
  datatype AttRequest = AttRequest(characteristicUuid: string, value: Option<Bytes>)

  /** `CBATTError.Code`: the result sent back with `respond`. */
  datatype AttResult =
    | Success
    | InvalidHandle
    | ReadNotPermitted
    | WriteNotPermitted
    | AttributeNotFound
    | UnlikelyError

  /** A call the controller makes on its `CBPeripheralManager`. */
  datatype Call =
    | Add(service: Service)
    | StartAdvertising(advertisement: Advertisement)
    | StopAdvertising
    | UpdateValue(data: Bytes, characteristic: Characteristic, centrals: Option<seq<CentralId>>)
    | Respond(request: AttRequest, result: AttResult)
}
