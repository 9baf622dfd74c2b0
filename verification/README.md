# goBlogService core rules in Dafny

This project models the small, pure rules inside the goBlogService Go web service and proves their properties:

- **`convert.StrTo`**: `strconv.Atoi` decimal parsing on a 64-bit platform, including its fast path, its range clamping and its error values. It also covers the error-discarding `Must*` variants and the truncating `uint32` conversion.
- **Pagination**: the page number, the page size clamped against the configured default and maximum, and the row offset computed with Go's wrapping 64-bit `int` arithmetic.
- **Upload names**: Go's `path.Ext`, the hashed-stem file name, the case-insensitive extension allow-list and the size limit.
- **Logger**: level names, and the shallow `clone` behind `WithFields` and `WithContext`. Because `clone` copies the struct, the new logger shares the old one's fields map. The model makes that sharing explicit with a heap of maps. It also covers how `JSONFormat` builds a record, with reserved keys taking priority, and the level dispatch of `Output`.
- **Rate limiter**: the admission branch of the `RateLimiter` middleware over a map from key to available tokens.
- **Tag DAO**: the statements the DAO builds: count, list with offset and limit, insert, column-update map, and delete.
- **Article requests**: the `binding` tags of the five article request structs, read as validation predicates.

Modules (one per source file):

| file | module | models |
|---|---|---|
| wrappers.dfy | `Wrappers` | `Option` |
| go_ints.dfy | `GoInts` | 64-bit and 32-bit Go integer ranges, wrap-around and truncation |
| convert.dfy | `Convert` | pkg/convert/convert.go and the `strconv` functions it calls |
| pagination.dfy | `Pagination` | pkg/app/pagination.go |
| upload.dfy | `Upload` | pkg/upload/file.go |
| logger.dfy | `Logging` | pkg/logger/logger.go |
| limiter.dfy | `RateLimit` | internal/middleware/limiter.go |
| tag_dao.dfy | `TagDao` | internal/dao/tag.go |
| article_requests.dfy | `ArticleService` | internal/service/article.go |

Go strings are modelled as sequences of characters. For every rule modelled here this gives the same result as Go's bytes or runes:

- Atoi rejects every non-ASCII character.
- `path.Ext` only looks for '.' and '/'.
- The validator's `min` and `max` count runes.

## Model

| member | source | states |
|---|---|---|
| Convert.ParseIntSpec | pkg/convert/convert.go:13 | `strconv.ParseInt(s, 10, 64)` reports no error exactly when `s` is an optional sign followed by digits and its value fits in 64 bits. Its value is then the decimal value. Out-of-range decimals are clamped to MaxInt64 or MinInt64 with a range error. A syntax error returns 0. A short non-decimal string is a syntax error. The value always fits in int64. |
| Convert.AtoiFastAgrees | pkg/convert/convert.go:13 | Atoi's fast path for 1 to 18 characters returns exactly what the general ParseInt path returns. |
| Convert.AtoiSpec | pkg/convert/convert.go:13 | `strconv.Atoi` accepts exactly the optional-sign-then-digits syntax within the int64 range. It clamps with a range error outside that range, so every range error carries MaxInt64 or MinInt64. It returns 0 on a syntax error, and always yields a value in int64. |
| Convert.AtoiFormatInt | pkg/convert/convert.go:12-15 | Parsing the decimal rendering of any 64-bit n gives n with no error (round trip). |
| Convert.AtoiOverflowFirst | pkg/convert/convert.go:12-15 | A string of more than 20 characters that begins with twenty digits, the first being '9', yields MaxInt64 with a range error. The overflow is seen before any later non-digit. |
| Convert.AtoiRangeBeforeSyntax | pkg/convert/convert.go:12-15 | "99999999999999999999x" gives MaxInt64 with a range error, not 0 with a syntax error. |
| Convert.StrTo.String | pkg/convert/convert.go:7-9 | The wrapped string comes back unchanged: wrapping the result again gives the same `StrTo`. |
| Convert.StrTo.Int | pkg/convert/convert.go:12-15 | No error exactly for in-range decimals. The value is then the decimal value. A decimal above or below the int64 range gives MaxInt64 or MinInt64 with a range error. Every range error carries one of those two values. A syntax error gives 0. |
| Convert.StrTo.MustInt | pkg/convert/convert.go:17-20 | The error is discarded: the decimal value when in range, MaxInt64 or MinInt64 when out of range, 0 for a non-numeric string. |
| Convert.StrTo.UInt32 | pkg/convert/convert.go:22-25 | The error is exactly Atoi's error. The value is congruent to the decimal value modulo 2^32, and equals it for 0 to 2^32-1. Above the int64 range the result is 4294967295 with a range error; below it, 0 with a range error. Every range error, including one from a long non-decimal string, carries 4294967295 or 0. A syntax error gives 0. |
| Convert.StrTo.MustUint32 | pkg/convert/convert.go:27-30 | The value is congruent modulo 2^32 to the decimal value and equals it when it is in range. It is 4294967295 above the int64 range, 0 below it, and 0 for a non-numeric string. |
| Convert.MinusOneWrapsToMaxUint32 | pkg/convert/convert.go:22-25 | "-1" converts without error to 4294967295. |
| Convert.OversizedIdBecomesMaxUint32 | pkg/convert/convert.go:27-30 | An id beyond the int64 range clamps to MaxInt64, whose low 32 bits give 4294967295. |
| Pagination.GetPage | pkg/app/pagination.go:10-16 | The page is always at least 1. It is the parsed value when positive (MaxInt64 beyond range), and 1 for a value ≤ 0 or a non-numeric query. |
| Pagination.MissingPageIsFirst | pkg/app/pagination.go:11-15 | A missing `page` query parses to 0 and selects page 1. |
| Pagination.GetPageSize | pkg/app/pagination.go:18-27 | The default for a value ≤ 0 or a non-numeric query, the maximum for a value above it, otherwise the value itself. The result lies in [1, max] whenever 1 ≤ default ≤ max. |
| Pagination.GetPageOffset | pkg/app/pagination.go:29-35 | 0 for page ≤ 0. For a positive page it is `(page-1)*pageSize` when that fits in int64, and always congruent to it modulo 2^64. |
| Pagination.OffsetsAdvanceByPageSize | pkg/app/pagination.go:29-35 | Page 1 starts at offset 0. Each next page starts exactly one page size later, for any page size, whenever `page*pageSize` fits in int64. |
| Pagination.OffsetWrapsForHugePage | pkg/app/pagination.go:32 | Page 2^62+1 with page size 2 wraps to offset MinInt64. |
| Upload.ExtDotIndex | pkg/upload/file.go:27-29 | The backward scan of `path.Ext` finds the last '.' that has no '/' after it. It finds nothing exactly when every '.' is followed by a '/'. |
| Upload.Ext | pkg/upload/file.go:27-29 | The extension is a suffix of the name. When non-empty it starts with '.' and has no other '.' and no '/'. It is empty exactly when the last slash-separated element has no '.'. |
| Upload.ExtOfExt | pkg/upload/file.go:27-29 | Taking the extension of an extension gives it back. |
| Upload.ExtUpperCommutes | pkg/upload/file.go:41-42 | The extension of the upper-cased name is the upper-cased extension. |
| Upload.TrimSuffix | pkg/upload/file.go:21 | With the suffix present, result plus suffix is the input. Otherwise the input is unchanged. |
| Upload.Stem | pkg/upload/file.go:20-21 | The stem followed by the extension is the original name. |
| Upload.GetFileName | pkg/upload/file.go:19-25 | The stored name is the MD5 digest of the stem followed by the original extension. |
| Upload.ExtAfterDigest | pkg/upload/file.go:22-24 | An extension appended to a hex digest is the extension of the result. |
| Upload.GetFileNameKeepsExt | pkg/upload/file.go:19-25 | With a hex-digest MD5, the stored name has the same extension as the uploaded one. |
| Upload.AllowListHas | pkg/upload/file.go:46-50 | The allow-list loop succeeds exactly when some entry, upper-cased, equals the upper-cased extension. |
| Upload.CheckContainExt | pkg/upload/file.go:40-53 | True exactly when the type is `TypeImage` (1) and some allow-list entry matches the extension ignoring ASCII case. Any other type gives false. |
| Upload.CheckContainExtIgnoresCase | pkg/upload/file.go:42-47 | Names that differ only in ASCII letter case get the same answer. |
| Upload.CheckMaxSize | pkg/upload/file.go:55-67 | Other types are never too big. For an image, "too big" holds exactly when size ≥ limit × 1024 × 1024 (inclusive boundary), whenever that product fits in int64. |
| Logging.LevelName | pkg/logger/logger.go:17-43 | A level has a non-empty name exactly when it is one of the six defined levels. |
| Logging.LevelNamesDistinct | pkg/logger/logger.go:27-43 | The six levels have pairwise distinct names. |
| Logging.Clone | pkg/logger/logger.go:57-60 | The clone sees the same fields map as the original in every heap. |
| Logging.WithFields | pkg/logger/logger.go:63-74 | The result's keys are the old keys plus those of `f`. `f`'s values win, other values are kept, and writer, context and callers are unchanged. No map other than the receiver's is touched. |
| Logging.WithFieldsAliasing | pkg/logger/logger.go:63-74 | A receiver that already has a map shares the result's map and sees the new fields. A receiver with a nil map keeps seeing no fields, and the result gets a fresh map. |
| Logging.WithContext | pkg/logger/logger.go:77-81 | Only the context changes. |
| Logging.ContextCloneSharesFields | pkg/logger/logger.go:57-81 | Fields added through a `WithContext` clone show up in the original logger. |
| Logging.ReservedEntries | pkg/logger/logger.go:115-119 | The four reserved keys are exactly "level", "time", "message" and "callers", and their values always encode. A nil callers slice is `null`. |
| Logging.AddAbsent | pkg/logger/logger.go:121-127 | Visiting the fields in any order and adding only absent keys yields the fields overridden by the existing entries. |
| Logging.JSONFormat | pkg/logger/logger.go:114-129 | The record's keys are the reserved keys plus the field keys. Its contents are the fields overridden by the reserved entries. |
| Logging.RecordReservedWin | pkg/logger/logger.go:115-126 | Reserved entries always come from the inputs. Every non-reserved field appears with its own value. |
| Logging.Marshal | pkg/logger/logger.go:132 | Encoding fails and gives "" exactly when some value of the record cannot be encoded. Otherwise the text is the record's encoding. |
| Logging.RecordEncodable | pkg/logger/logger.go:114-133 | A record encodes exactly when every non-reserved field value does. A field hidden by a reserved key cannot make it fail. |
| Logging.Output | pkg/logger/logger.go:131-148 | Debug to Error print, Fatal exits and Panic panics. Any other level writes nothing. The text written is the merged record when every non-reserved field encodes, and "" otherwise, because the encoding error is discarded. |
| RateLimit.TakeAvailable | internal/middleware/limiter.go:14 | The tokens taken and left add up to those available. The number taken is min(count, available) for a positive count. |
| RateLimit.RateLimiter | internal/middleware/limiter.go:10-24 | No bucket means `Next` with nothing changed. Otherwise `Next` exactly when a token was available, which is then taken, and `TooManyRequests` with `Abort` when none was. Other keys' buckets are untouched. |
| RateLimit.ServeDecision | internal/middleware/limiter.go:12-22 | Over a run of requests, request i is admitted exactly when its key has no bucket or fewer earlier same-key requests came before it than the bucket held. |
| RateLimit.ServeGrants | internal/middleware/limiter.go:13-20 | A bucket admits min(requests, tokens) of its key's requests, never more, and is left with the rest. |
| RateLimit.KeysIndependent | internal/middleware/limiter.go:12-14 | Decisions for a key depend only on that key's bucket. |
| RateLimit.TenAdmittedEleventhRejected | internal/middleware/limiter.go:13-20 | A 10-token bucket admits 10 immediate requests and rejects the 11th with `TooManyRequests`. |
| TagDao.CountTag | internal/dao/tag.go:8-11 | The count filters on exactly the given name and state. |
| TagDao.CountMatchesList | internal/dao/tag.go:8-17 | The count and a list page for the same name and state use the same filter tag, as the list handler needs when it reports the total beside the page. |
| TagDao.GetTagList | internal/dao/tag.go:13-17 | The list uses limit = page size. The offset is 0 for page ≤ 0, and exactly `(page-1)*pageSize` for a positive page whenever that product fits in int64. |
| TagDao.ListPagesTile | internal/dao/tag.go:13-17 | Consecutive pages' windows meet exactly: each page starts where the previous one ends, whenever `page*pageSize` fits in int64. |
| TagDao.CreateTag | internal/dao/tag.go:19-26 | The inserted tag has exactly the given name, state and creator. |
| TagDao.CreateThenUpdate | internal/dao/tag.go:19-40 | The row a create stores holds exactly the given name, state and creator, and an empty modifier. A later update of that id gives the new state and modifier, and the new name only if one was given. The creator is kept. |
| TagDao.UpdateTag | internal/dao/tag.go:28-40 | The map always holds "state" and "modified_by". It holds "name" exactly when the name is non-empty. It has no other keys. The row is identified by id alone. |
| TagDao.DeleteTag | internal/dao/tag.go:42-45 | The row is identified by id alone: every other field of the tag is zero. |
| TagDao.DeleteTargetsUpdatedRow | internal/dao/tag.go:28-45 | Delete and update of the same id address the same row. |
| TagDao.UpdateTagEffect | internal/dao/tag.go:32-38 | After the update, the row has the new state and modifier, and the new name only if one was given. Id and creator are unchanged. |
| ArticleService.CountArticleValid | internal/service/article.go:3-6 | Valid exactly when the name has at most 100 characters and state is 0 or 1. |
| ArticleService.ArticleListValid | internal/service/article.go:8-11 | Valid exactly when the name has at most 100 characters and state is 0 or 1. |
| ArticleService.CreateArticleValid | internal/service/article.go:13-17 | Valid exactly when the name and creator have 3 to 100 characters and state is the text "0" or "1". |
| ArticleService.UpdateArticleValid | internal/service/article.go:19-24 | Valid exactly when the id is non-empty (`gte=1` bounds a string's length), name and modifier have 3 to 100 characters, and state is "0" or "1". |
| ArticleService.DeleteArticleValid | internal/service/article.go:26-28 | Valid exactly when the id is non-empty. |
| ArticleService.ZeroIdPasses | internal/service/article.go:27 | The id "0" passes `required,gte=1`. |
| ArticleService.StateNumberMeaning | internal/service/article.go:5 | `oneof=0 1` on a uint8 holds exactly for 0 and 1. |
| ArticleService.DefaultStateIsValid | internal/service/article.go:5-22 | An absent state binds to 1 (the string "1" or the number 1), which satisfies `oneof=0 1`. |

## Left out

- **JWT handling** (pkg/app/jwt.go): signing, verification and expiry happen inside the jwt-go library.
- **Panic recovery** (internal/middleware/recovery.go): recovery, alert e-mail and stack capture are fault handling and I/O.
- **Router setup** (internal/routers): the gin route table.
- **Configuration and start-up**: the settings files and `main.go`.
- **Token buckets** (pkg/limiter): it is not part of this model. A bucket is the number of tokens available when the request arrives. Time-based refill is left out, so a run of requests is one instant. `l.Key(c)` is a parameter.
- RateLimit.TakeAvailable: modelled as taking min(count, available) tokens, the usual token-bucket meaning, because the bucket's code is not part of this model.
- **Logger call-site methods**: `WithCaller` and `WithCallersFrames` read the runtime call stack.
- **Logger level wrappers**: `Debug` to `Panicf` only format the message before calling `Output`.
- **JSON encoding**: `json.Marshal` is library code. An encodable record stands for its JSON text. Which Go values fail to encode is not derived: a field value is marked `Unencodable` instead.
- **Clock**: `time.Now` is a parameter (`now`).
- **Log writer**: the `log.Logger` writer is an opaque id. Only the outcome kind of `Output` is modelled (print, exit, panic, nothing).
- **Upload file handling**: `CheckSavePath`, `CheckPermission`, `CreateSavePath`, `SaveFile` and the `io.ReadAll` in `CheckMaxSize` are file-system and stream I/O. The size check takes the byte count as input.
- **MD5**: `utils.EncodeMD5` is a function parameter.
- **Upper-casing**: `strings.ToUpper` is modelled on ASCII letters only, because full Unicode case mapping is out of scope.
- **ORM layer**: `internal/model` and the gorm engine are not part of this model. The DAO operations return the statement they would issue.
- **Query parsing and validator internals**: gin's query parsing and the validator's own dispatch are not modelled. A request is its field values.
- **Platform width**: the platform is assumed to be 64-bit, so Go `int` is int64.
- Convert.StrTo.MustInt: the result 0 for a non-numeric string is stated for strings of at most 20 characters. A longer string whose leading digits already exceed the uint64 range overflows before its first non-digit is reached, and yields MaxInt64 or MinInt64 (see `Convert.AtoiOverflowFirst`). For any length, a syntax error gives 0 (`Convert.StrTo.Int`).
- Convert.StrTo.MustUint32: the non-numeric case is stated for at most 20 characters, for the same reason.
- Pagination.GetPage: the non-numeric case is stated for at most 20 characters, for the same reason.
- Pagination.GetPageSize: the non-numeric case is stated for at most 20 characters, for the same reason.
- Upload.CheckMaxSize: the exact comparison is stated when `limit*1024*1024` fits in int64. Beyond that the model wraps the product as Go does.
- **Validator `oneof` options**: these are split at spaces by the validator. The model takes the split list directly.
