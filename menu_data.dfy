/** The data document fetched by the page: each top-level key names a list of
    records in source order. A JSON value that is missing, null or falsy is
    modelled by its neutral value: "" for strings, 0 for prices, false for the
    gluten-free flag. Prices are whole cents. */
module MenuData {

  datatype Option<T> = None | Some(value: T)

  /** One entry of a menu list. A record whose name is "" is a note-only
      sentinel and is never rendered as a dish. */
  datatype Record = Record(
    name: string,
    description: string,
    note: string,
    price: nat,
    smallPrice: nat,
    largePrice: nat,
    gf: bool)

  /** The parsed document: a key is present exactly when the document has a
      (truthy) list under it. */
  type MenuDocument = map<string, seq<Record>>
}
