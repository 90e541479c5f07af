/** The conventional optional value, used for the MQTT client handle that may be absent. */
module Wrappers {
  datatype Option<+T> = None | Some(value: T)
}
