/** The gallery document store of js/app.js: the in-memory document
    (categories of photos, albums, history, metadata), the order in which
    it is loaded from the JSON seed, the saved blob and the built-in
    defaults, the metadata recomputed on every save, the capped history,
    adding a photo behind the `add_photo` rate limit, and the search and
    category filter of the gallery view.

    Storage, `fetch` and JSON are reduced to the values they deliver;
    clock readings, generated ids, `toLowerCase` and the HTML escaping are
    parameters. */
module Gallery {
  import opened Common
  import Security

  datatype Photo = Photo(id: string, name: string, imageUrl: string, description: string,
                         createdAt: string, createdBy: string)

  datatype Album = Album(id: string, name: string, description: string, photos: seq<string>,
                         createdAt: string)

  datatype HistoryItem = HistoryItem(id: string, kind: string, details: string, timestamp: string)

  /** Every metadata field may be missing: the document starts with an empty metadata object. */
  datatype Metadata = Metadata(lastUpdated: Option<string>, totalPhotos: Option<nat>,
                               totalAlbums: Option<nat>, version: Option<string>)

  datatype Document = Document(categories: map<string, seq<Photo>>, albums: map<string, Album>,
                               history: seq<HistoryItem>, metadata: Metadata)

  const MaxHistory: nat := 50

  /** The document the app object holds before anything is loaded. */
  const InitialDocument: Document := Document(map[], map[], [], Metadata(None, None, None, None))

  /** `loadDefaultData`, stamped with the current ISO time. */
  function DefaultDocument(now: string): (d: Document)
    ensures d.categories == map[] && d.albums == map[] && d.history == []
    ensures d.metadata.totalPhotos == Some(0) && d.metadata.totalAlbums == Some(0)
    ensures d.metadata.lastUpdated == Some(now) && d.metadata.version == Some("1.0.0")
  {
    Document(map[], map[], [], Metadata(Some(now), Some(0), Some(0), Some("1.0.0")))
  }

  // ---------------------------------------------------------------------
  // Photo count
  // ---------------------------------------------------------------------

  /** The number of photos over all categories. */
  ghost function TotalPhotos(categories: map<string, seq<Photo>>): nat
    decreases |categories|
  {
    if categories == map[] then 0
    else
      var c :| c in categories;
      |categories[c]| + TotalPhotos(categories - {c})
  }

  /** The total does not depend on which category is counted first. */
  lemma {:induction false} TotalPhotosRemove(categories: map<string, seq<Photo>>, c: string)
    requires c in categories
    ensures TotalPhotos(categories) == |categories[c]| + TotalPhotos(categories - {c})
    decreases |categories|
  {
    var d :| d in categories && TotalPhotos(categories) == |categories[d]| + TotalPhotos(categories - {d});
    if d != c {
      TotalPhotosRemove(categories - {d}, c);
      TotalPhotosRemove(categories - {c}, d);
      assert categories - {d} - {c} == categories - {c} - {d};
    }
  }

  /** Replacing one category's list changes the total by the difference in length. */
  lemma TotalPhotosUpdate(categories: map<string, seq<Photo>>, c: string, photos: seq<Photo>)
    ensures TotalPhotos(categories[c := photos]) + |Photos(categories, c)| ==
            TotalPhotos(categories) + |photos|
  {
    var updated := categories[c := photos];
    TotalPhotosRemove(updated, c);
    if c in categories {
      TotalPhotosRemove(categories, c);
      assert updated - {c} == categories - {c};
    } else {
      assert updated - {c} == categories;
    }
  }

  /** The categories whose names are in `names`. */
  function Restrict(categories: map<string, seq<Photo>>, names: set<string>): map<string, seq<Photo>> {
    map c | c in names && c in categories :: categories[c]
  }

  // ---------------------------------------------------------------------
  // Metadata, history, adding a photo
  // ---------------------------------------------------------------------

  /** What `saveData` writes into the metadata before persisting. */
  ghost function WithTotals(doc: Document, now: string): (r: Document)
    ensures r.categories == doc.categories && r.albums == doc.albums && r.history == doc.history
    ensures r.metadata.totalPhotos == Some(TotalPhotos(doc.categories))
    ensures r.metadata.totalAlbums == Some(|doc.albums|)
    ensures r.metadata.lastUpdated == Some(now) && r.metadata.version == doc.metadata.version
  {
    doc.(metadata := doc.metadata.(lastUpdated := Some(now),
                                   totalPhotos := Some(TotalPhotos(doc.categories)),
                                   totalAlbums := Some(|doc.albums|)))
  }

  /** The photos of a category, or none when the category is absent. */
  function Photos(categories: map<string, seq<Photo>>, category: string): seq<Photo> {
    if category in categories then categories[category] else []
  }

  /** The categories after a photo is filed under `category`, creating it if absent. */
  function AddToCategory(categories: map<string, seq<Photo>>, category: string, photo: Photo)
    : (r: map<string, seq<Photo>>)
    ensures r.Keys == categories.Keys + {category}
    ensures |r[category]| == |Photos(categories, category)| + 1
    ensures r[category][..|r[category]| - 1] == Photos(categories, category)
    ensures r[category][|r[category]| - 1] == photo
    ensures forall c :: c in categories && c != category ==> r[c] == categories[c]
  {
    categories[category := Photos(categories, category) + [photo]]
  }

  /** Creating the category if absent and then appending is filing the photo. */
  lemma FiledInCategory(categories: map<string, seq<Photo>>, category: string, photo: Photo)
    ensures var created := categories[category := Photos(categories, category)];
      created[category := created[category] + [photo]] == AddToCategory(categories, category, photo)
  {
  }

  /** Filing a photo raises the total count by exactly one. */
  lemma AddToCategoryTotal(categories: map<string, seq<Photo>>, category: string, photo: Photo)
    ensures TotalPhotos(AddToCategory(categories, category, photo)) == TotalPhotos(categories) + 1
  {
    TotalPhotosUpdate(categories, category, Photos(categories, category) + [photo]);
  }

  /** The fields of the add-photo form. */
  datatype PhotoInput = PhotoInput(name: string, category: string, imageUrl: string,
                                   description: Option<string>)

  /** The generated ids one `addGalleryPhoto` call uses. */
  datatype NewIds = NewIds(photo: string, categoryHistory: string, photoHistory: string)

  const CreatedBy: string := "ผู้ใช้"
  const RateLimitedMessage: string := "การดำเนินการนี้ถูกจำกัดจำนวนครั้ง กรุณารอสักครู่"

  /** The photo record built from the form; name and description are escaped,
      a missing description becomes the escaped empty string. */
  function NewPhoto(input: PhotoInput, escape: string -> string, id: string, now: string): (p: Photo)
    ensures p.name == escape(input.name) && p.imageUrl == input.imageUrl
    ensures p.description == escape(if input.description.Some? then input.description.value else "")
    ensures p.id == id && p.createdAt == now && p.createdBy == CreatedBy
  {
    Photo(id, Security.SanitizeHTML(escape, Security.JsString(input.name)).str, input.imageUrl,
          Security.SanitizeHTML(escape, Security.JsString(input.description.GetOr(""))).str, now, CreatedBy)
  }

  function CategoryCreatedItem(category: string, id: string, now: string): HistoryItem {
    HistoryItem(id, "สร้างหมวดหมู่", "สร้างหมวดหมู่ '" + category + "'", now)
  }

  function PhotoAddedItem(input: PhotoInput, id: string, now: string): HistoryItem {
    HistoryItem(id, "เพิ่มรูปภาพ", "เพิ่มรูปภาพ '" + input.name + "' ในหมวดหมู่ '" + input.category + "'", now)
  }

  /** The history after adding a photo: a "category created" entry is pushed
      first when the category was new, then the "photo added" entry, each push
      capped at 50; the "photo added" entry ends at index 0 and the
      "category created" entry, if any, at index 1. */
  function HistoryAfterAdd(history: seq<HistoryItem>, input: PhotoInput, ids: NewIds, now: string,
                           created: bool): (h: seq<HistoryItem>)
    ensures 1 <= |h| <= MaxHistory
    ensures h[0] == PhotoAddedItem(input, ids.photoHistory, now)
    ensures created ==> |h| >= 2 && h[1] == CategoryCreatedItem(input.category, ids.categoryHistory, now)
    ensures var k := if created then 2 else 1;
      |h| == Min(|history| + k, MaxHistory) && h[k..] == history[..|h| - k]
  {
    var h := if created then PushCapped(history, CategoryCreatedItem(input.category, ids.categoryHistory, now), MaxHistory)
             else history;
    PushCapped(h, PhotoAddedItem(input, ids.photoHistory, now), MaxHistory)
  }

  // ---------------------------------------------------------------------
  // Loading
  // ---------------------------------------------------------------------

  /** The parsed seed file: each top-level key may be present or absent. */
  datatype Seed = Seed(categories: Option<map<string, seq<Photo>>>, albums: Option<map<string, Album>>,
                       history: Option<seq<HistoryItem>>, metadata: Option<Metadata>)

  /** How the request for the seed file ended: it threw (network error or a
      body that is not JSON), answered with a non-success status, or
      delivered a seed. */
  datatype SeedFetch = FetchThrew | NotOk | SeedLoaded(seed: Seed)

  /** What the browser storage holds under the document key. */
  datatype Stored = Absent | Unparsable | StoredDocument(doc: Document)

  /** The shallow merge of the seed into the document: every key the seed carries replaces the current value. */
  function Merge(doc: Document, seed: Seed): (r: Document)
    ensures seed.categories.Some? ==> r.categories == seed.categories.value
    ensures seed.categories.None? ==> r.categories == doc.categories
    ensures seed.albums.Some? ==> r.albums == seed.albums.value
    ensures seed.albums.None? ==> r.albums == doc.albums
    ensures seed.history.Some? ==> r.history == seed.history.value
    ensures seed.history.None? ==> r.history == doc.history
    ensures seed.metadata.Some? ==> r.metadata == seed.metadata.value
    ensures seed.metadata.None? ==> r.metadata == doc.metadata
  {
    Document(seed.categories.GetOr(doc.categories), seed.albums.GetOr(doc.albums),
             seed.history.GetOr(doc.history), seed.metadata.GetOr(doc.metadata))
  }

  /** `loadFromLocalStorage`: a stored document replaces the current one; an
      absent or unparsable blob leaves it as it is. */
  function FromStorage(doc: Document, stored: Stored): (r: Document)
    ensures stored.StoredDocument? ==> r == stored.doc
    ensures !stored.StoredDocument? ==> r == doc
  {
    if stored.StoredDocument? then stored.doc else doc
  }

  /** The two fallbacks after the seed step: storage if there are still no
      categories, then the defaults if there are still none. */
  function Fallbacks(doc: Document, stored: Stored, now: string): (r: Document)
    ensures |doc.categories| > 0 ==> r == doc
    ensures |doc.categories| == 0 && stored.StoredDocument? && |stored.doc.categories| > 0 ==> r == stored.doc
    ensures |doc.categories| == 0 && !(stored.StoredDocument? && |stored.doc.categories| > 0) ==>
      r == DefaultDocument(now)
  {
    var d := if |doc.categories| == 0 then FromStorage(doc, stored) else doc;
    if |d.categories| == 0 then DefaultDocument(now) else d
  }

  /** `loadData`. A seed request that throws skips straight to the storage
      step and never reaches the defaults. */
  function Load(current: Document, fetched: SeedFetch, stored: Stored, now: string): Document {
    match fetched
    case FetchThrew => FromStorage(current, stored)
    case NotOk => Fallbacks(current, stored, now)
    case SeedLoaded(seed) => Fallbacks(Merge(current, seed), stored, now)
  }

  /** A seed that brings categories wins: storage is not consulted. */
  lemma LoadSeedFirst(current: Document, seed: Seed, stored: Stored, now: string)
    requires |Merge(current, seed).categories| > 0
    ensures Load(current, SeedLoaded(seed), stored, now) == Merge(current, seed)
  {
  }

  /** Without categories from the seed, a stored document with categories is used as it is. */
  lemma LoadStorageSecond(current: Document, fetched: SeedFetch, stored: Stored, now: string)
    requires fetched.NotOk? || (fetched.SeedLoaded? && |Merge(current, fetched.seed).categories| == 0)
    requires fetched.NotOk? ==> |current.categories| == 0
    requires stored.StoredDocument? && |stored.doc.categories| > 0
    ensures Load(current, fetched, stored, now) == stored.doc
  {
  }

  /** When the seed request completes, loading ends with categories or with the defaults. */
  lemma LoadCompletes(current: Document, fetched: SeedFetch, stored: Stored, now: string)
    requires !fetched.FetchThrew?
    ensures var d := Load(current, fetched, stored, now);
      |d.categories| > 0 || d == DefaultDocument(now)
  {
  }

  /** When the seed request throws, only storage is tried: a stored document
      replaces the current one, otherwise it stays as it was, and the defaults
      are never loaded. */
  lemma LoadAfterFetchError(current: Document, stored: Stored, now: string)
    ensures Load(current, FetchThrew, stored, now) == FromStorage(current, stored)
  {
  }

  /** A document saved without categories does not survive a reload whose
      seed request answers with a non-success status: the defaults replace
      it, albums and history included. */
  lemma SavedWithoutCategoriesIsReplaced(saved: Document, now: string)
    requires |saved.categories| == 0
    ensures Load(InitialDocument, NotOk, StoredDocument(saved), now) == DefaultDocument(now)
  {
  }

  /** A saved document with categories is reloaded unchanged when the seed
      file is unavailable. */
  lemma SavedDocumentReloads(saved: Document, fetched: SeedFetch, now: string)
    requires fetched.FetchThrew? || fetched.NotOk?
    requires |saved.categories| > 0
    ensures Load(InitialDocument, fetched, StoredDocument(saved), now) == saved
  {
  }

  // ---------------------------------------------------------------------
  // Gallery filter
  // ---------------------------------------------------------------------

  /** One photo the gallery shows: its category, its index there, the photo. */
  datatype Shown = Shown(category: string, index: nat, photo: Photo)

  /** The filter of `renderGallery`: with an empty (lower-cased) search every
      photo passes; otherwise the lower-cased name or category must contain it. */
  predicate Matches(lower: string -> string, photo: Photo, category: string, search: string) {
    search == "" || Contains(lower(photo.name), search) || Contains(lower(category), search)
  }

  /** The photos of one category from index `from` on that pass the filter, in order. */
  function ShownInCategory(lower: string -> string, category: string, photos: seq<Photo>, from: nat,
                           search: string): (r: seq<Shown>)
    requires from <= |photos|
    ensures forall e :: e in r <==>
      && e.category == category && from <= e.index < |photos| && e.photo == photos[e.index]
      && Matches(lower, e.photo, category, search)
    ensures forall i :: 0 <= i < |r| ==> from <= r[i].index
    ensures forall i, j :: 0 <= i < j < |r| ==> r[i].index < r[j].index
    decreases |photos| - from
  {
    if from == |photos| then []
    else
      var rest := ShownInCategory(lower, category, photos, from + 1, search);
      if Matches(lower, photos[from], category, search) then [Shown(category, from, photos[from])] + rest
      else rest
  }

  /** The photos of the listed categories that pass the filter, category by category. */
  function ShownIn(lower: string -> string, categories: map<string, seq<Photo>>, names: seq<string>,
                   search: string): (r: seq<Shown>)
    ensures forall e :: e in r <==>
      && e.category in names && e.category in categories
      && e.index < |categories[e.category]| && e.photo == categories[e.category][e.index]
      && Matches(lower, e.photo, e.category, search)
  {
    if names == [] then []
    else
      var photos := Photos(categories, names[0]);
      ShownInCategory(lower, names[0], photos, 0, search) + ShownIn(lower, categories, names[1..], search)
  }

  /** `renderGallery`: `keys` is the order of `Object.keys(categories)`; a
      selected category replaces it; the search box is lower-cased first. */
  function GalleryListing(lower: string -> string, categories: map<string, seq<Photo>>, keys: seq<string>,
                          searchBox: string, selectedCategory: string): (r: seq<Shown>)
    ensures forall e :: e in r <==>
      && (if selectedCategory != "" then e.category == selectedCategory else e.category in keys)
      && e.category in categories
      && e.index < |categories[e.category]| && e.photo == categories[e.category][e.index]
      && Matches(lower, e.photo, e.category, lower(searchBox))
  {
    var names := if selectedCategory != "" then [selectedCategory] else keys;
    ShownIn(lower, categories, names, lower(searchBox))
  }

  /** A selected category restricts the listing to its photos, and a selected
      category that does not exist shows nothing. */
  lemma SelectedCategoryRestricts(lower: string -> string, categories: map<string, seq<Photo>>,
                                  keys: seq<string>, searchBox: string, selectedCategory: string)
    requires selectedCategory != ""
    ensures forall e :: e in GalleryListing(lower, categories, keys, searchBox, selectedCategory) ==>
      e.category == selectedCategory
    ensures selectedCategory !in categories ==>
      GalleryListing(lower, categories, keys, searchBox, selectedCategory) == []
  {
    var r := GalleryListing(lower, categories, keys, searchBox, selectedCategory);
    if selectedCategory !in categories && r != [] {
      assert r[0] in r;
    }
  }

  /** With no category selected, the keys listing every category and an empty
      search, every photo of every category is shown. */
  lemma EmptySearchShowsAll(lower: string -> string, categories: map<string, seq<Photo>>,
                            keys: seq<string>, searchBox: string)
    requires forall c :: c in categories ==> c in keys
    requires lower(searchBox) == ""
    ensures forall c, i :: c in categories && 0 <= i < |categories[c]| ==>
      Shown(c, i, categories[c][i]) in GalleryListing(lower, categories, keys, searchBox, "")
  {
  }

  // ---------------------------------------------------------------------
  // The app object
  // ---------------------------------------------------------------------

  class App {
    var data: Document
    const security: Security.SecuritySystem

    constructor (security: Security.SecuritySystem)
      ensures data == InitialDocument && this.security == security
    {
      data := InitialDocument;
      this.security := security;
    }

    /** Sums the lengths of the category lists one category at a time. */
    method GetTotalPhotos() returns (total: nat)
      ensures total == TotalPhotos(data.categories)
    {
      var categories := data.categories;
      var remaining := categories.Keys;
      total := 0;
      assert Restrict(categories, remaining) == categories;
      while remaining != {}
        invariant remaining <= categories.Keys
        invariant total + TotalPhotos(Restrict(categories, remaining)) == TotalPhotos(categories)
        decreases remaining
      {
        var c :| c in remaining;
        TotalPhotosRemove(Restrict(categories, remaining), c);
        assert Restrict(categories, remaining) - {c} == Restrict(categories, remaining - {c});
        total := total + |categories[c]|;
        remaining := remaining - {c};
      }
      assert Restrict(categories, remaining) == map[];
    }

    /** Recomputes the metadata; writing the blob to storage and the export are not modelled. */
    method SaveData(now: string)
      modifies this
      ensures data == WithTotals(old(data), now)
    {
      var totalPhotos := GetTotalPhotos();
      data := data.(metadata := data.metadata.(lastUpdated := Some(now),
                                               totalPhotos := Some(totalPhotos),
                                               totalAlbums := Some(|data.albums|)));
    }

    method AddHistory(kind: string, details: string, id: string, now: string)
      modifies this
      ensures data.history == PushCapped(old(data.history), HistoryItem(id, kind, details, now), MaxHistory)
      ensures data.categories == old(data.categories) && data.albums == old(data.albums)
      ensures data == WithTotals(data, now)
      ensures data.metadata.version == old(data.metadata.version)
    {
      var item := HistoryItem(id, kind, details, now);
      data := data.(history := [item] + data.history);
      if |data.history| > MaxHistory {
        data := data.(history := data.history[..MaxHistory]);
      }
      SaveData(now);
    }

    method LoadFromLocalStorage(stored: Stored)
      modifies this
      ensures data == FromStorage(old(data), stored)
    {
      if stored.StoredDocument? {
        data := stored.doc;
      }
    }

    method LoadDefaultData(now: string)
      modifies this
      ensures data == DefaultDocument(now)
    {
      data := DefaultDocument(now);
    }

    /** `loadData` over what the seed request and the storage delivered. */
    method LoadData(fetched: SeedFetch, stored: Stored, now: string)
      modifies this
      ensures data == Load(old(data), fetched, stored, now)
    {
      if fetched.FetchThrew? {
        LoadFromLocalStorage(stored);
        return;
      }
      if fetched.SeedLoaded? {
        data := Merge(data, fetched.seed);
      }
      if |data.categories| == 0 {
        LoadFromLocalStorage(stored);
      }
      if |data.categories| == 0 {
        LoadDefaultData(now);
      }
    }

    /** The part of `addGalleryPhoto` after the rate-limit gate: creates the
        category (recording it in the history) if absent, appends the photo,
        saves, and records the addition. */
    method FilePhoto(input: PhotoInput, photo: Photo, ids: NewIds, now: string)
      modifies this
      ensures data.categories == AddToCategory(old(data.categories), input.category, photo)
      ensures TotalPhotos(data.categories) == TotalPhotos(old(data.categories)) + 1
      ensures data.albums == old(data.albums)
      ensures data.history ==
        HistoryAfterAdd(old(data.history), input, ids, now, input.category !in old(data.categories))
      ensures data == WithTotals(data, now)
      ensures data.metadata.version == old(data.metadata.version)
    {
      var category := input.category;
      ghost var cats0 := data.categories;
      EnsureCategory(category, ids.categoryHistory, now);
      AppendPhoto(category, photo, now);
      FiledInCategory(cats0, category, photo);
      var added := PhotoAddedItem(input, ids.photoHistory, now);
      AddHistory(added.kind, added.details, ids.photoHistory, now);
      AddToCategoryTotal(cats0, category, photo);
    }

    /** Creates an absent category as an empty list and records that in the history. */
    method EnsureCategory(category: string, id: string, now: string)
      modifies this
      ensures data.categories == old(data.categories)[category := Photos(old(data.categories), category)]
      ensures data.albums == old(data.albums)
      ensures data.history == if category in old(data.categories) then old(data.history)
                              else PushCapped(old(data.history), CategoryCreatedItem(category, id, now), MaxHistory)
      ensures category in old(data.categories) ==> data == old(data)
      ensures category !in old(data.categories) ==> data == WithTotals(data, now)
      ensures data.metadata.version == old(data.metadata.version)
    {
      if category !in data.categories {
        data := data.(categories := data.categories[category := []]);
        var created := CategoryCreatedItem(category, id, now);
        AddHistory(created.kind, created.details, id, now);
      } else {
        assert data.categories == data.categories[category := data.categories[category]];
      }
    }

    /** Appends the photo to its (existing) category and saves, which recomputes the metadata. */
    method AppendPhoto(category: string, photo: Photo, now: string)
      requires category in data.categories
      modifies this
      ensures data.categories == old(data.categories)[category := old(data.categories)[category] + [photo]]
      ensures data.albums == old(data.albums) && data.history == old(data.history)
      ensures data == WithTotals(data, now)
      ensures data.metadata.version == old(data.metadata.version)
    {
      data := data.(categories := data.categories[category := data.categories[category] + [photo]]);
      SaveData(now);
    }

    /** `addGalleryPhoto`: behind the `add_photo` rate limit (60 s window, 10
        attempts), creates the category if absent and appends the new photo. */
    method AddGalleryPhoto(input: PhotoInput, escape: string -> string, ids: NewIds, nowMs: int,
                           now: string, stamp: Security.Stamp)
      returns (r: Result<Photo, string>)
      requires security.Valid()
      modifies this, security
      ensures security.Valid()
      ensures security.rateLimiters ==
        Security.AfterRateCheck(old(security.rateLimiters), "add_photo", nowMs,
                                Security.DefaultWindowMs, Security.DefaultMaxAttempts)
      ensures r.Success? <==>
        Security.Admits(Security.Attempts(old(security.rateLimiters), "add_photo"), nowMs,
                        Security.DefaultWindowMs, Security.DefaultMaxAttempts)
      ensures r.Failure? ==> data == old(data) && r.error == RateLimitedMessage
      ensures r.Failure? ==>
        var recent := Security.Recent(Security.Attempts(old(security.rateLimiters), "add_photo"), nowMs,
                                      Security.DefaultWindowMs);
        security.logs == PushCapped(old(security.logs),
                                    Security.Stamped(Security.RateLimitEvent("add_photo", |recent|), stamp),
                                    Security.MaxLogs)
      ensures r.Success? ==> security.logs == old(security.logs)
      ensures security.csrfToken == old(security.csrfToken)
      ensures r.Success? ==> r.value == NewPhoto(input, escape, ids.photo, now)
      ensures r.Success? ==> data.categories == AddToCategory(old(data.categories), input.category, r.value)
      ensures r.Success? ==> TotalPhotos(data.categories) == TotalPhotos(old(data.categories)) + 1
      ensures r.Success? ==> data.albums == old(data.albums)
      ensures r.Success? ==>
        data.history == HistoryAfterAdd(old(data.history), input, ids, now, input.category !in old(data.categories))
      ensures r.Success? ==> data == WithTotals(data, now)
      ensures data.metadata.version == old(data.metadata.version)
    {
      var allowed := security.CheckRateLimit("add_photo", nowMs, Security.DefaultWindowMs,
                                             Security.DefaultMaxAttempts, stamp);
      if !allowed {
        return Failure(RateLimitedMessage);
      }
      var photo := NewPhoto(input, escape, ids.photo, now);
      FilePhoto(input, photo, ids, now);
      r := Success(photo);
    }
  }
}
