/** Small value types shared by every module of the model. */
module Base {

  /** A value that may be absent: JavaScript's `null` / `undefined`. */
  datatype Option<T> = None | Some(value: T)

  /** How an awaited promise settles: it resolves with a value, or it rejects with
      an `Error` whose `message` is given. */
  datatype Settled<T> = Returns(value: T) | Throws(message: string)

  /** How one call into the device's key-value storage (AsyncStorage) ends: the
      storage itself is not modelled, only whether the call succeeds. */
  datatype StorageOp = Succeeds | Fails(message: string)

  /** A geographic position. The coordinates are floating-point numbers in the app;
      here they are opaque values that are only copied, never computed on. */
  datatype Coords = Coords(latitude: real, longitude: real)
}
