/**
 * The canonical intermediate record every provider adapter produces: one
 * `StagedItem` per non-blank source row.
 */
module StagedItems {
  import opened Wrappers
  import opened JsNumber

  /** The closed set of suppliers. */
  datatype ProviderCode = MotosYEquipos | Mrm

  /** The provider code as it travels in requests and rows. */
  function ProviderCodeText(p: ProviderCode): string
  {
    match p
    case MotosYEquipos => "motos_y_equipos"
    case Mrm => "mrm"
  }

  /** An optional property that may also hold `null`: `T | null | undefined`. */
  datatype Field<+T> = Undefined | Null | Value(value: T)

  /** The only supported currency. */
  const Mxn: string := "MXN"

  /**
   * A staged row. Optional string properties are `None` when absent; `price` is
   * `None` for `null`; `stock`, `priceDiscounted` and `msrp` may be absent or `null`.
   * `currency` is a string so that the validator's currency rule has something to reject.
   */
  datatype StagedItem = StagedItem(
    providerCode: ProviderCode,
    providerSku: string,
    name: string,
    description: Option<string>,
    brand: Option<string>,
    model: Option<string>,
    category: Option<string>,
    unit: Option<string>,
    warehouse: Option<string>,
    stock: Field<Number>,
    price: Option<Number>,
    priceDiscounted: Field<Number>,
    msrp: Field<Number>,
    currency: string,
    extra: Option<map<string, string>>,
    imageHints: Option<seq<string>>)

}
