/** The persisted preferences (QSettings) as a key to value map. Keys are
    written "group/key", as QSettings spells a key inside a group. */
module Settings {
  import opened Snapshot

  datatype Value = IntValue(i: int) | BytesValue(bytes: Stream)

  type Store = map<string, Value>

  const LastSessionKey: string := "sessions/lastSession"
  const OpenLinksInKey: string := "general/openLinksIn"

  /** settings.value(key, default).toInt(): the default when the key is
      missing, 0 when the value is not an int. */
  function IntOr(store: Store, key: string, default: int): (v: int)
    ensures key !in store ==> v == default
    ensures key in store && store[key].IntValue? ==> v == store[key].i
    ensures key in store && store[key].BytesValue? ==> v == 0
  {
    if key !in store then default
    else match store[key]
      case IntValue(i) => i
      case BytesValue(_) => 0
  }

  /** settings.value(key).toByteArray(): empty when missing or not bytes. */
  function BytesOf(store: Store, key: string): (bytes: Stream)
    ensures key in store && store[key].BytesValue? ==> bytes == store[key].bytes
    ensures bytes != [] ==> key in store && store[key] == BytesValue(bytes)
  {
    if key in store && store[key].BytesValue? then store[key].bytes else []
  }

  /** The policy key read by newLocalSocketConnection, defaulting to 0. */
  function OpenLinksIn(store: Store): int
  {
    IntOr(store, OpenLinksInKey, 0)
  }
}
