/** The errors the favourites store throws; the wrapped Foundation errors are kept as their descriptions. */
module PersistenceServiceError {
  datatype PersistenceServiceError =
    | Save(cause: string)
    | Fetch(cause: string)
    | Delete(cause: string)
    | General(message: string)
}
