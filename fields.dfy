/** The eight data fields a user can ask the scraper for, and the menu that offers them. */
module Fields {
  import opened Wrappers

  datatype FieldId = Title | Price | Condition | Shipping | Location | Url | ImageUrl | SoldCount

  /** The record key under which a field is stored. */
  function Key(f: FieldId): string
  {
    match f
    case Title => "title"
    case Price => "price"
    case Condition => "condition"
    case Shipping => "shipping"
    case Location => "location"
    case Url => "url"
    case ImageUrl => "image_url"
    case SoldCount => "sold_count"
  }

  /** The fields in the order the menu lists them ("0" selects them all, in this order). */
  const MenuOrder: seq<FieldId> := [Title, Price, Condition, Shipping, Location, Url, ImageUrl, SoldCount]

  /** The menu number printed next to a field. */
  function MenuNumber(f: FieldId): string
  {
    match f
    case Title => "1"
    case Price => "2"
    case Condition => "3"
    case Shipping => "4"
    case Location => "5"
    case Url => "6"
    case ImageUrl => "7"
    case SoldCount => "8"
  }

  /** The field a menu number names, None for any other text. */
  function MenuField(c: string): Option<FieldId>
  {
    if c == "1" then Some(Title)
    else if c == "2" then Some(Price)
    else if c == "3" then Some(Condition)
    else if c == "4" then Some(Shipping)
    else if c == "5" then Some(Location)
    else if c == "6" then Some(Url)
    else if c == "7" then Some(ImageUrl)
    else if c == "8" then Some(SoldCount)
    else None
  }

  /** The menu is a bijection between the numbers "1".."8" and the fields, listed in menu order. */
  lemma MenuNumbering(f: FieldId, c: string)
    ensures MenuField(MenuNumber(f)) == Some(f)
    ensures MenuField(c) == Some(f) ==> c == MenuNumber(f)
    ensures MenuOrder[MenuNumber(f)[0] as int - '1' as int] == f
    ensures |MenuNumber(f)| == 1 && '1' <= MenuNumber(f)[0] <= '8'
  {
    match f
    case Title =>
    case Price =>
    case Condition =>
    case Shipping =>
    case Location =>
    case Url =>
    case ImageUrl =>
    case SoldCount =>
  }

  /** Different fields are stored under different keys, none of them the timestamp key. */
  lemma KeysDistinct(f: FieldId, g: FieldId)
    ensures Key(f) == Key(g) ==> f == g
    ensures Key(f) != "scraped_at"
  {
  }
}
