/** `NewsCache` of scripts/update_news.py: the URL-keyed summary cache. */
module Cache {
  import opened Wrappers
  import opened News

  /** The record `NewsCache.set` stores for an item. */
  function EntryOf(item: NewsItem): (e: Entry)
    ensures IsTruthy(e) && e.severity == None
  {
    Entry(Some(item.title), Some(item.summary), Some(IsoFormat(item.published)), Some(item.source),
          Some(item.categories), Some(item.image), None, false)
  }

  /** What `_load` leaves in `entries`: a malformed file, like a missing one,
      gives an empty cache. */
  function Loaded(file: StoredFile<map<string, Entry>>): (m: map<string, Entry>)
    ensures file.Parsed? ==> m == file.content
    ensures !file.Parsed? ==> m == map[]
  {
    if file.Parsed? then file.content else map[]
  }

  class NewsCache {
    var entries: map<string, Entry>
    /** The content of the cache file after the last `save`, if any happened. */
    var saved: Option<map<string, Entry>>

    constructor (file: StoredFile<map<string, Entry>>)
      ensures entries == Loaded(file) && saved == None
    {
      entries := Loaded(file);
      saved := None;
    }

    function Get(link: string): (r: Option<Entry>)
      reads this
      ensures r.Some? <==> link in entries
      ensures r.Some? ==> r.value == entries[link]
    {
      if link in entries then Some(entries[link]) else None
    }

    /** Overwrites or inserts the record for `link`; every other link keeps its record. */
    method Set(link: string, item: NewsItem)
      modifies this
      ensures entries == old(entries)[link := EntryOf(item)] && saved == old(saved)
      ensures Get(link) == Some(EntryOf(item))
      ensures var e := Get(link).value;
        && e.title == Some(item.title) && e.summary == Some(item.summary)
        && e.published == Some(IsoFormat(item.published)) && e.source == Some(item.source)
        && e.categories == Some(item.categories) && e.image == Some(item.image)
    {
      entries := entries[link := EntryOf(item)];
    }

    method Save()
      modifies this
      ensures entries == old(entries) && saved == Some(entries)
    {
      saved := Some(entries);
    }
  }

  /** Setting a record, saving, and loading the saved file into a new cache
      gives back that record, and every other record as it was loaded. */
  method SetSaveReload(file: StoredFile<map<string, Entry>>, link: string, item: NewsItem)
    returns (e: Option<Entry>, reloaded: map<string, Entry>)
    ensures e == Some(EntryOf(item))
    ensures reloaded == Loaded(file)[link := EntryOf(item)]
  {
    var c := new NewsCache(file);
    c.Set(link, item);
    c.Save();
    var c2 := new NewsCache(Parsed(c.saved.value));
    e := c2.Get(link);
    reloaded := c2.entries;
  }
}
