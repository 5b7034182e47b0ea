/**
 * The `history_table` entity: an immutable record with a generated integer
 * primary key. Only `id` is a key; nothing about `url` is declared unique.
 */
module HistoryEntity {

  /** One visited page: its row id, address, page title and last-visit time in milliseconds. */
  datatype HistoryItem = HistoryItem(id: int, url: string, title: string, timestamp: int)

  /** The default id. An insert that carries it asks the table to generate the primary key. */
  const AUTO_ID: int := 0

  /**
   * `HistoryItem(url = url, title = title)` with every other field at its
   * default. `now` is the wall-clock reading the `timestamp` default takes.
   */
  function NewHistoryItem(url: string, title: string, now: int): (h: HistoryItem)
    ensures h.id == AUTO_ID
    ensures h.url == url && h.title == title && h.timestamp == now
  {
    HistoryItem(AUTO_ID, url, title, now)
  }

  /** The data class's `copy(timestamp = t)`. */
  function CopyWithTimestamp(h: HistoryItem, t: int): (r: HistoryItem)
    ensures r.id == h.id && r.url == h.url && r.title == h.title
    ensures r.timestamp == t
    ensures r == h <==> h.timestamp == t
  {
    h.(timestamp := t)
  }

  /** Data-class equality compares all four fields. */
  lemma EqualityIsStructural(a: HistoryItem, b: HistoryItem)
    ensures a == b <==> (a.id == b.id && a.url == b.url && a.title == b.title && a.timestamp == b.timestamp)
  {
  }
}
