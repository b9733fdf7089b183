/** Values that may be missing, and calls that may fail. */
module Options {
  datatype Option<+T> = None | Some(value: T)

  function Get<K, V>(m: map<K, V>, k: K): Option<V> {
    if k in m then Some(m[k]) else None
  }

  /** The error codes that the modelled calls return; Panic stands for a stopped kernel. */
  datatype Error = NoMem | BadEnv | Inval | NoFreeEnv | IpcNotRecv | NotFound | NoDisk | Panic

  datatype Result<+T> = Ok(value: T) | Err(error: Error)
}
