/**
 * The record shapes the application passes around: a tenant's table
 * configuration, a hospital, a user and the raw data of an inventory item.
 */
module Types {
  import opened Wrappers

  /** Direction of the table's initial sort. */
  datatype SortOrder = Asc | Desc

  /** The column the table is initially sorted by, and in which direction. */
  datatype SortSpec = SortSpec(key: string, order: SortOrder)

  /** A tenant's column selection: the keys to show, in order, and the initial sort. */
  datatype HeadersConfig = HeadersConfig(fields: seq<string>, defaultSort: SortSpec)

  /**
   * The per-hospital configuration. The type declares `inventoryHeaders` as
   * always present, but fixture data may lack it, and the store falls back to a
   * default then, so it is optional here.
   */
  datatype HospitalConfig = HospitalConfig(inventoryHeaders: Option<HeadersConfig>)

  datatype Hospital = Hospital(id: int, name: string, config: HospitalConfig)

  datatype User = User(id: int, name: string, email: string, hospital: Hospital)

  /** The plain data of one inventory record, as the inventory fixtures supply it. */
  datatype ItemData = ItemData(
    id: int,
    productName: string,
    manufacturer: string,
    category: string,
    quantity: int,
    expiryDate: Option<string>,
    unitPrice: Option<real>)
}
