/** What reading one key of browser storage and JSON-decoding it can give:
    nothing (a missing key or an empty, falsy string), text that does not
    decode (JSON.parse throws), or a decoded value. */
module BrowserStorage {

  datatype Stored<T> = Absent | Malformed | Present(value: T)
}
