# Google Photos API client — a Dafny model

This project models the decision-making core of a small PHP client for the
Picasa Web Albums data API. The client keeps a settings array and builds the
query of the album-list feed and of an album's media feed from it. It rejects
any response whose status is not 200, and it maps the feed entries of the XML
response into `Album`, `Photo` and `Video` objects. A video's renditions are
`ContentElement` objects, and the widest one supplies the video's url.

The HTTP transport, the XML parser, the thumbnail-url rewriting of
`resizeImage` and the entry classification of `AbstractMedia::isVideo` are not
part of the model. They appear as function-typed parameters: the transport maps
the requested feed and query to a status code and an already parsed body (or
none, when the body is not well-formed), and the two others are arbitrary
functions of their arguments.

Modules, one per file:

- `Php` (`php.dfy`): the PHP values the client handles. It also defines the
  `(string)` and `(int)` casts, `$a[$k]` on a missing key, `isset`,
  `array_merge` on string-keyed arrays and `in_array`.
- `Xml` (`xml.dfy`): a parsed feed as SimpleXML presents it. Each node has a
  namespace prefix, a name, attributes, text and children. A child or an
  attribute missing from a present node reads as an empty result, which the
  casts turn into `''` or 0.
- `Media` (`media.dfy`): the settings array, the resize call and the media
  group check that the three mappers share. Each mapper calls
  `->attributes()` on `$media->group->thumbnail`. When the entry has no
  media group, that expression is null, the call throws PHP's `Error`, and the
  mapper gives no value. The feed operation then fails.
- `Content` (`content.dfy`): `ContentElement`, its zero-width default (the
  sentinel), `makeFromXml`, `isBiggerThan` and `isVideo`.
- `Videos` (`video.dfy`): `Video::makeFromXml` (a loop collecting the video
  renditions) and `getBestStream` (a running maximum). Both are methods,
  proved against the functions `StreamsWhere` and `BestOf`. A predicate
  `SelectsBest` characterises the best stream independently of the loop.
- `Albums` (`album.dfy`) and `Photos` (`photo.dfy`): the entry mappers, and
  `Album::isExcluded`.
- `Client` (`client.dfy`): the class `GooglePhotosClient` with its mutable
  `settings` field, and the two feed operations, proved against the functions
  `KeptAlbums` and `MediaList`. The settings step, the query builders and the
  parse fallback are also modelled.

Points where the code differs from its own comments, and choices the model
makes where PHP or a library decides:

- `should_crop` is documented as `bool : false` in the docblock of
  `setSettings` (Client/GooglePhotosClient.php:205), but `getDefaultSettings`
  stores the string `'false'` (line 230). The model stores the string.
- `addPagination` links to the GData parameters `start-index` and
  `max-results` (lines 152-153), but it sends the query keys `start_index` and
  `max_results`, with underscores (lines 162 and 166). The model sends the
  underscored keys.
- `getDefaultSettings` returns the previously stored settings once there are
  any, so `setSettings` merges onto the last state rather than onto fresh
  defaults.
- `getBestStream` starts its search from a zero-width `ContentElement`. A
  stream of width 0 or less is therefore never chosen, and the video's url is
  then `''`.
- `ContentElement::isVideo` compares with `===`, which never holds (see
  Findings). The model uses the evidently intended comparison of the
  attribute's string value with `'video'`.
- `Video::makeFromXml` passes the thumbnail attribute node itself, not its
  string cast, to `resizeImage`; `Album` and `Photo` pass the cast string.
- `in_array` is taken as strict equality. In the model, an ignored-albums
  entry given as the string `"5"` does not exclude the album whose id is 5,
  although PHP's loose `in_array` would (see Left out).
- For an error status (400 or more) the HTTP client, created with its default
  options, throws its own exception inside `request()` (lines 69 and 118). The
  status check at lines 83 and 132 only sees the other statuses. The model
  returns `HttpError` for the former and the status-check exception for the
  latter.

## Model

| member | source | states |
|---|---|---|
| Php.StringCast | Model/Album.php:59 | no contract of its own: PHP's `(string)` cast on the values the client meets (null gives `''`, an integer its decimal notation) |
| Php.IntCast | Model/Album.php:64 | no contract of its own: PHP's `(int)` cast (null gives 0, a string goes through `Php.StringToInt`) |
| Php.StringToInt | Model/Album.php:64-65 | no contract of its own: the `(int)` cast of a string; `Php.StringToIntRoundTrip` states that it reads back every decimal notation |
| Php.StringToIntRoundTrip | Model/Album.php:64-65 | the `(int)` cast of the decimal notation of any integer, negative ones included, gives that integer back |
| Php.ArrayMerge | Client/GooglePhotosClient.php:217 | the merged array has the keys of both arrays; the second array's value wins on a shared key; every other key keeps the first array's value |
| Php.InArray | Model/Album.php:89-90 | `in_array` with strict comparison: the scan finds the needle exactly when it is an element of the list (weaker than the loose comparison; see Left out) |
| Xml.FirstMissing | Model/Photo.php:35 | `$x->name` as one node is missing exactly when no child of `$x` has that name |
| Xml.TextValue | Model/Photo.php:38-40 | the `(string)` cast of a missing element is `''`, of a present one its text |
| Xml.AttrValue | Model/ContentElement.php:50-55 | an attribute lookup gives null or an attribute node; its `(string)` cast is the attribute's value, or `''` when the attribute or the node is missing |
| Xml.SelectAppend | Model/Video.php:69 | selecting children by name distributes over concatenation, so document order is kept |
| Xml.FirstAt | Model/Photo.php:35 | the first matching child is the one at index i whenever no earlier child matches |
| Media.HasMediaGroup | Model/Album.php:56-57 | no contract of its own: whether `$media->group` exists, so that `->thumbnail->attributes()` is not called on null; the mappers' contracts give a value exactly when it holds |
| Content.IsBiggerThan | Model/ContentElement.php:67-70 | no contract of its own: the width comparison; its order properties are stated by `Content.IsBiggerThanIsStrictOrder` |
| Content.IsVideoAsWritten | Model/ContentElement.php:80 | no contract of its own: the identity comparison as written; `Content.IsVideoAsWrittenNeverHolds` states that it never holds |
| Content.FromXml | Model/ContentElement.php:46-58 | type and medium are always set; the element is a video rendition exactly when its medium is "video"; a missing width gives 0 and a missing url gives `''` |
| Content.FromXmlContentNode | Model/ContentElement.php:50-55 | each of the five attributes lands in its own field, the dimensions through `(int)` |
| Content.FromXmlStreamNode | Model/ContentElement.php:50-55 | mapping the content node that carries an element's fields gives that element back |
| Content.FromXmlBareNode | Model/ContentElement.php:15-25 | a node without attributes maps to the default url, height and width, with empty type and medium |
| Content.IsBiggerThanIsStrictOrder | Model/ContentElement.php:67-70 | `isBiggerThan` is irreflexive, asymmetric and transitive, and changing the height never changes it |
| Content.IsVideo | Model/ContentElement.php:78-81 | a node is a video rendition exactly when the string cast of its medium attribute is 'video', a missing attribute casting to `''` |
| Content.StreamNodeIsVideo | Model/ContentElement.php:78-81 | a content node whose medium is "video" is recognised as a video rendition |
| Content.IsVideoAsWrittenNeverHolds | Model/ContentElement.php:80 | the identity comparison as written is false for every node |
| Content.VideoNodeRejectedAsWritten | Model/ContentElement.php:78-81 | a node whose medium is "video" passes the documented test and fails the test as written |
| Videos.StreamsWhere | Model/Video.php:68-74 | at most one stream per content node; which nodes become streams, and in what order, is stated by `Videos.StreamsWhereSources`, `Videos.StreamsWhereAppend` and `Videos.StreamsWhereAllKept` |
| Videos.StreamsWhereSources | Model/Video.php:68-75 | every collected stream is the mapping of a content node that the filter accepts |
| Videos.StreamsWhereAppend | Model/Video.php:69-74 | filtering distributes over concatenation: the renditions keep document order |
| Videos.StreamsAsWrittenEmpty | Model/Video.php:69-74 | with `isVideo` as written, no rendition is ever collected |
| Videos.BestOf | Model/Video.php:101-114 | the best stream is the sentinel or one of the streams; its width is at least 0 and at least that of every stream |
| Videos.SelectsBest | Model/Video.php:101-114 | no contract of its own: the independent description of the best stream (the zero-width `Content.Sentinel` when no stream is wider than 0, otherwise the first stream of maximal width); `Videos.BestOfSelectsBest` ties the loop to it |
| Videos.BestOfSelectsBest | Model/Video.php:101-114 | the running maximum gives the sentinel when no stream is wider than 0, and otherwise the first stream of maximal width |
| Videos.FirstWidestExtends | Model/Video.php:105-111 | the first widest stream so far stays the first widest when the next stream is not strictly wider |
| Videos.SelectsBestUnique | Model/Video.php:105-111 | at most one stream satisfies that characterisation, so it pins the result down |
| Videos.GetBestStream | Model/Video.php:101-114 | the loop returns the running maximum, which satisfies the characterisation above |
| Videos.MakeFromXml | Model/Video.php:60-93 | the collecting loop and the best-stream pick build exactly the video the mapping function describes, and nothing for an entry without a media group |
| Videos.VideoUrlIsBestStream | Model/Video.php:77 | for an entry with a media group, the video's url is `''` when no stream is wider than 0, and otherwise the url of the first widest stream |
| Videos.StreamsAreVideoContents | Model/Video.php:68-75 | for an entry with a media group, every stream of a video is a video rendition mapped from a content node of the entry's media group |
| Videos.WidestStreamChosen | Model/Video.php:101-114 | of renditions 320, 1280 and 640 wide, the 1280 one is chosen |
| Videos.TieGoesToFirst | Model/Video.php:107 | of two renditions of equal width, the first one is chosen |
| Videos.StreamsWhereAllKept | Model/Video.php:69-74 | when every content node passes the filter, the streams are the mappings of the nodes, one per node, in order |
| Videos.StreamsOfStreamNodes | Model/Video.php:68-75 | the content nodes of a sequence of video streams map back to that sequence, in order |
| Videos.FromXml | Model/Video.php:60-93 | a video exactly when the entry has a media group (none stands for the `Error` at line 67); the fields are stated by `Videos.FromXmlVideoEntry`, `Videos.VideoUrlIsBestStream` and `Videos.StreamsAreVideoContents` |
| Videos.FromXmlVideoEntry | Model/Video.php:60-93 | mapping a video entry gives back its title, summary, dates, dimensions and streams; the url is the best stream's; the thumbnail attribute node goes to the resize |
| Videos.VideoEntryTexts | Model/Video.php:76-81 | the title, summary and dates are read from the first matching child |
| Videos.VideoEntryNumbers | Model/Video.php:82-83 | height and width are the `(int)` casts of the provider's fields |
| Videos.VideoGroupContents | Model/Video.php:67-78 | the thumbnail url is read as an attribute node; the streams are the group's content children |
| Albums.IgnoredAlbums | Model/Album.php:86 | no contract of its own: `$settings['ignored_albums']` read as a list; see Left out for a non-array value |
| Albums.IsExcluded | Model/Album.php:84-92 | an album is excluded exactly when its id or its title is listed in `ignored_albums` |
| Albums.NothingIgnoredNothingExcluded | Model/Album.php:86-91 | with nothing listed, no album is excluded |
| Albums.ExclusionIsMonotone | Model/Album.php:88-91 | listing more values can only exclude more albums |
| Albums.ExcludedByIdOrTitle | Model/Album.php:88-91 | listing the id excludes the album, listing the title excludes it, listing another title does not |
| Albums.FromXml | Model/Album.php:50-76 | an album exactly when the entry has a media group (none stands for the `Error` at line 57); the fields are stated by `Albums.FromXmlAlbumEntry` and `Albums.FromXmlEmptyEntry` |
| Albums.FromXmlAlbumEntry | Model/Album.php:50-76 | mapping an album entry gives back every field it carries; the thumbnail url is replaced by its resized form |
| Albums.AlbumEntryTexts | Model/Album.php:59-61 | the title and both dates are read from the entry's children |
| Albums.AlbumEntryNumbers | Model/Album.php:64-65 | the id and photo count are the `(int)` casts of the provider's fields |
| Albums.AlbumEntryUrls | Model/Album.php:57-63 | the photo url and the thumbnail url are read from the media group |
| Albums.FromXmlEntryWithoutGroup | Model/Album.php:57 | an entry without a media group gives no album, whatever title and id it carries |
| Albums.FromXmlEmptyEntry | Model/Album.php:57-73 | an entry whose only child is a media group holding a thumbnail and a content node without attributes gives empty strings and zeros, and the resize still runs on `''` |
| Photos.FromXml | Model/Photo.php:25-52 | a photo exactly when the entry has a media group (none stands for the `Error` at line 32); the fields are stated by `Photos.FromXmlPhotoEntry` and `Photos.FirstTitleWins` |
| Photos.FromXmlPhotoEntry | Model/Photo.php:25-52 | mapping a photo entry gives back every field it carries, the dates unparsed; the thumbnail url is replaced by its resized form |
| Photos.PhotoEntryTexts | Model/Photo.php:35-40 | the title, summary and dates are read from the first matching child |
| Photos.PhotoEntryNumbers | Model/Photo.php:41-42 | height and width are the `(int)` casts of the provider's fields |
| Photos.PhotoEntryUrls | Model/Photo.php:32-37 | the photo url and the thumbnail url are read from the media group |
| Photos.FirstTitleWins | Model/Photo.php:35-38 | of two titles and two summaries, only the first of each counts |
| Client.RequestError | Client/GooglePhotosClient.php:69-84 | a request fails exactly when the status is not 200; the HTTP client's own exception, carrying the status, comes exactly for a status of 400 or more; any other failing status gets the status-check exception naming it |
| Client.StatusErrorNamesStatus | Client/GooglePhotosClient.php:83-84 | the exception message determines the status code that caused it |
| Client.Defaults | Client/GooglePhotosClient.php:228-235 | no contract of its own: the six hard-coded defaults; `Client.FreshClientHoldsDefaults` states them |
| Client.BaseSettings | Client/GooglePhotosClient.php:224-236 | no contract of its own: the stored settings once there are any, the defaults before; `Client.NullKeepsStoredSettings` and `Client.FreshClientHoldsDefaults` state both cases |
| Client.NextSettings | Client/GooglePhotosClient.php:212-219 | a null argument keeps the base settings; otherwise every override key takes the override and every other base key keeps its value |
| Client.FreshClientHoldsDefaults | Client/GooglePhotosClient.php:214-235 | a fresh client given null holds exactly the six defaults, with `should_crop` the string `'false'` |
| Client.NullKeepsStoredSettings | Client/GooglePhotosClient.php:214-227 | on a configured client, `setSettings(null)` changes nothing |
| Client.EarlierOverridesPersist | Client/GooglePhotosClient.php:217-227 | a key set by an earlier call survives a later call that does not name it |
| Client.DefaultKeysStay | Client/GooglePhotosClient.php:212-236 | every stored settings array has all the default keys |
| Client.Paginate | Client/GooglePhotosClient.php:158-170 | `start_index` and `max_results` are copied exactly when set and non-null; every other key is left as it was and none is removed |
| Client.AlbumsQuery | Client/GooglePhotosClient.php:61-67 | the album-list query has exactly kind, thumbsize and access from the settings, plus the pagination keys that are set, each with the settings' value |
| Client.MediaQuery | Client/GooglePhotosClient.php:111-116 | the media query has exactly thumbsize and access from the settings and imgmax `'d'`, plus the pagination keys that are set, each with the settings' value |
| Client.DecodeXml | Client/GooglePhotosClient.php:179-193 | a parsed body is returned as is; an unparsable one gives a fallback with no entries and no title |
| Client.FeedTitle | Client/GooglePhotosClient.php:137 | no contract of its own: the `(string)` cast of the feed's first title; `Client.GooglePhotosClient.GetAlbumImages` states that it becomes the album title |
| Client.AlbumMapperDefined | Client/GooglePhotosClient.php:88-89 | the album mapper gives an album for every entry exactly when every entry has a media group |
| Client.KeptAlbumsStep | Client/GooglePhotosClient.php:88-93 | one more entry appends its album unless it is excluded |
| Client.KeptAlbums | Client/GooglePhotosClient.php:86-95 | for entries that all map, the album list is no longer than the entry list, holds no excluded album, and every album in it is the mapping of some entry |
| Client.KeptAlbumsAppend | Client/GooglePhotosClient.php:88-93 | filtering distributes over concatenation: the albums keep feed order |
| Client.KeptAlbumsComplete | Client/GooglePhotosClient.php:88-93 | every album that is not excluded is kept |
| Client.NothingIgnoredKeepsAll | Client/GooglePhotosClient.php:88-93 | with nothing to ignore, album i is the mapping of entry i |
| Client.KeepAlbums | Client/GooglePhotosClient.php:86-93 | the loop fails with the mapper's `Error` when some entry has no media group, and otherwise builds exactly the filtered album list |
| Client.MediaOf | Client/GooglePhotosClient.php:139-143 | an entry gives an item exactly when it has a media group, and then a video exactly when it is classified as one |
| Client.MakeMediaItem | Client/GooglePhotosClient.php:139-143 | the dispatch builds the video with the video mapper and the photo with the photo mapper, and nothing without a media group |
| Client.MediaGroupStep | Client/GooglePhotosClient.php:138-144 | a prefix of entries with media groups grows by one entry that has one |
| Client.MediaList | Client/GooglePhotosClient.php:138-144 | the media list has exactly one item per entry |
| Client.MediaListItems | Client/GooglePhotosClient.php:138-144 | item i is the item of entry i, and it is a video exactly when entry i is classified as one |
| Client.MediaListAt | Client/GooglePhotosClient.php:138-144 | item i of the media list is the item of entry i |
| Client.MediaListStep | Client/GooglePhotosClient.php:138-144 | one more entry appends exactly its item to the list |
| Client.CollectMedia | Client/GooglePhotosClient.php:135-144 | the loop fails with the mapper's `Error` when some entry has no media group, and otherwise builds exactly the media list |
| Client.UnparsableBodyNoAlbums | Client/GooglePhotosClient.php:184-190 | a body that does not parse yields no album |
| Client.GooglePhotosClient.constructor | Client/GooglePhotosClient.php:44-48 | the constructor stores the settings that `setSettings` makes from the argument on an empty client |
| Client.GooglePhotosClient.SetSettings | Client/GooglePhotosClient.php:212-219 | the stored settings become the merge of the overrides onto the previous state (or onto the defaults), and keep every default key |
| Client.GooglePhotosClient.AddPagination | Client/GooglePhotosClient.php:158-170 | the conditional assignments produce the paginated query |
| Client.GooglePhotosClient.GetAlbumsList | Client/GooglePhotosClient.php:57-96 | a status other than 200 fails, with the HTTP client's exception for 400 or more and with the status in the message otherwise; a 200 response with an entry lacking a media group fails with the mapper's `Error`; otherwise the result is the filtered album list of the parsed entries |
| Client.GooglePhotosClient.GetAlbumImages | Client/GooglePhotosClient.php:107-147 | a status other than 200 fails in the same way and leaves the title as passed; on 200 the title is the feed's first title, and the result is the mapper's `Error` when an entry lacks a media group and otherwise the media list of the entries |

## Left out

- Client.RequestError: the HTTP client's redirects, timeouts and connection errors are not modelled; the response is the final one, and only its status decides between its exception for 400 or more and the status check.
- The HTTP request through Guzzle, its Authorization, GData-Version and Referer headers, and the endpoint urls: network I/O. The response is an input.
- The access token getter and setter: plain field access with no logic.
- XML parsing, `libxml_get_errors` and the `trigger_error` diagnostic of `decodeXml`: library code and a side effect. The body arrives parsed, or as none when it is not well-formed.
- `resizeImage` and `AbstractMedia::isVideo`: `AbstractMedia` is not part of this model. Both are arbitrary functions passed in.
- The `DateTime` objects built from an album's dates (Model/Album.php:60-61): date parsing is library code, so the dates are kept as the strings the feed carries. Neither the exception that `new \DateTime` throws on a malformed date, which aborts `getAlbumsList`, nor the current time it gives for an empty date is modelled.
- The getters and setters of the model classes: they are replaced by record fields.
- Namespace resolution through `getNameSpaces(true)`: a namespace is identified by its prefix (`gphoto`, `media`, or none for the default namespace). A feed that does not declare a prefix is not modelled.
- Php.InArray: models `in_array` with strict equality, where PHP compares loosely by default. Loose comparison depends on PHP's numeric-string rules, which are not modelled.
- Albums.IsExcluded: inherits the strict comparison of `Php.InArray`. An id matched by a numeric string, such as album 5 listed as `"5"`, or a title matched by a loosely equal value, is not excluded in the model.
- Albums.IgnoredAlbums: a non-array `ignored_albums` reads as an empty list, which is what `in_array` does under PHP 7 apart from its warning. PHP 8 throws a TypeError there instead.
- Php.StringToInt: models leading whitespace, a sign and decimal digits only. Float and exponent forms such as `"1e3"` and saturation at the 64-bit integer range are not modelled.
- Php.ArrayMerge: the model's arrays are unordered maps with string keys. The key order of the merged array and the renumbering of integer keys are not modelled.
- A `setSettings` argument that is neither null nor an array: PHP would raise an error in `array_merge`. The model only accepts arrays or none.

## Findings

| source | as written | input that shows it | evidently intended | confidence | as-written member | corrected member |
|---|---|---|---|---|---|---|
| Model/ContentElement.php:80 | `isVideo` compares the attribute node returned by `attributes()['medium']` with the string `'video'` using `===`, which is never true for an object (or for null) | any `<media:content medium="video" …/>` node; its renditions are then all dropped, so every video gets the empty url | the medium attribute, cast to a string, equals `'video'` | high, not executed | Content.VideoNodeRejectedAsWritten | Content.IsVideo |
