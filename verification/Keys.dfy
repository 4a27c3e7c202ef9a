/** Who makes a request. API keys are opaque: only their identity is used. */
module Keys {
  type Key = nat

  datatype Caller = Anonymous | Holder(key: Key)
}
