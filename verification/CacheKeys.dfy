/** The key under which one chunk of KV data is stored. */
module CacheKeys {

  datatype CacheEngineKey = CacheEngineKey(
    fmt: string,
    modelName: string,
    worldSize: int,
    workerId: int,
    chunkHash: string)
}
