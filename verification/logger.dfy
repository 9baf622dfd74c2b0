/**
 * pkg/logger/logger.go: level names, the builder methods that derive a new
 * logger from an old one, the JSON record and the level dispatch of `Output`.
 *
 * A Go `Fields` map is a reference: `clone` copies the `Logger` struct, so the
 * copy and the original share one map. The model makes that sharing explicit:
 * maps live in a `Heap` (a sequence of maps, indexed by `MapRef`), a logger
 * holds an optional reference (None is a nil map), and `WithFields` returns the
 * updated heap together with the new logger.
 */
module Logging {
  import opened Wrappers

  newtype Level = x: int | -128 <= x < 128

  const LevelDebug: Level := 0
  const LevelInfo: Level := 1
  const LevelWarn: Level := 2
  const LevelError: Level := 3
  const LevelFatal: Level := 4
  const LevelPanic: Level := 5

  /** `Level.String`. */
  function LevelName(l: Level): (r: string)
    ensures r != "" <==> LevelDebug <= l <= LevelPanic
  {
    if l == LevelDebug then "debug"
    else if l == LevelInfo then "info"
    else if l == LevelWarn then "warn"
    else if l == LevelError then "error"
    else if l == LevelFatal then "fatal"
    else if l == LevelPanic then "panic"
    else ""
  }

  /** Distinct levels have distinct names, so a record's "level" entry identifies its level. */
  lemma LevelNamesDistinct(a: Level, b: Level)
    requires LevelDebug <= a <= LevelPanic && LevelDebug <= b <= LevelPanic && a != b
    ensures LevelName(a) != LevelName(b)
  {
  }

  /**
   * Field values (Go `any`). `Null` is a nil slice, `Other` any other value
   * `encoding/json` can encode, and `Unencodable` one it rejects (a func, a
   * channel, a NaN or infinite float).
   */
  datatype Value =
    | Text(s: string)
    | Number(n: int)
    | TextList(items: seq<string>)
    | Null
    | Other(id: nat)
    | Unencodable(id: nat)

  predicate Encodable(v: Value)
  {
    !v.Unencodable?
  }

  type Fields = map<string, Value>
  type MapRef = nat
  type Heap = seq<Fields>

  /** The `*log.Logger` writer and the `context.Context`, both opaque here. */
  type WriterId = nat
  type ContextId = nat

  /** `callers` is None for the nil slice a logger starts with. */
  datatype Logger = Logger(writer: WriterId, ctx: ContextId, fields: Option<MapRef>, callers: Option<seq<string>>)

  predicate ValidIn(h: Heap, l: Logger)
  {
    l.fields.Some? ==> l.fields.value < |h|
  }

  /** The fields a logger sees in heap `h` (empty for a nil map). */
  function FieldsOf(h: Heap, l: Logger): Fields
    requires ValidIn(h, l)
  {
    if l.fields.None? then map[] else h[l.fields.value]
  }

  /** `clone`: a copy of the struct; the fields map is shared, not copied. */
  function Clone(l: Logger): (r: Logger)
    ensures forall h: Heap :: ValidIn(h, l) ==> ValidIn(h, r) && FieldsOf(h, r) == FieldsOf(h, l)
  {
    l
  }

  /**
   * `WithFields`: a clone whose map holds `f` on top of the fields seen so far.
   * When the receiver already has a map, the merge writes into that shared map.
   */
  function WithFields(h: Heap, l: Logger, f: Fields): (r: (Heap, Logger))
    requires ValidIn(h, l)
    ensures ValidIn(r.0, r.1) && ValidIn(r.0, l)
    ensures FieldsOf(r.0, r.1).Keys == FieldsOf(h, l).Keys + f.Keys
    ensures forall k :: k in f ==> FieldsOf(r.0, r.1)[k] == f[k]
    ensures forall k :: k in FieldsOf(h, l) && k !in f ==> FieldsOf(r.0, r.1)[k] == FieldsOf(h, l)[k]
    ensures r.1.writer == l.writer && r.1.ctx == l.ctx && r.1.callers == l.callers
    ensures |h| <= |r.0|
    ensures forall ref :: 0 <= ref < |h| && Some(ref) != l.fields ==> r.0[ref] == h[ref]
  {
    var l1 := Clone(l);
    if l1.fields.None? then
      // make(Fields) allocates a new map, which then receives a copy of f
      (h + [f], l1.(fields := Some(|h|)))
    else
      var ref := l1.fields.value;
      (h[ref := h[ref] + f], l1)
  }

  /**
   * The shallow clone leaks: a receiver that already had a map sees the new
   * fields too, while a receiver with a nil map keeps seeing no fields.
   */
  lemma WithFieldsAliasing(h: Heap, l: Logger, f: Fields)
    requires ValidIn(h, l)
    ensures l.fields.Some? ==> WithFields(h, l, f).1.fields == l.fields
    ensures l.fields.Some? ==> FieldsOf(WithFields(h, l, f).0, l) == FieldsOf(WithFields(h, l, f).0, WithFields(h, l, f).1)
    ensures l.fields.None? ==> FieldsOf(WithFields(h, l, f).0, l) == map[]
    ensures l.fields.None? ==> WithFields(h, l, f).1.fields == Some(|h|)
  {
  }

  /** `WithContext`: a clone that differs from the receiver in its context only. */
  function WithContext(l: Logger, ctx: ContextId): (r: Logger)
    ensures r.ctx == ctx
    ensures r.(ctx := l.ctx) == l
  {
    var l1 := Clone(l);
    l1.(ctx := ctx)
  }

  /**
   * A logger derived with `WithContext` shares its map with the original, so
   * adding fields through the derived logger changes what the original logs.
   */
  lemma ContextCloneSharesFields(h: Heap, l: Logger, ctx: ContextId, f: Fields)
    requires ValidIn(h, l) && l.fields.Some?
    ensures var h' := WithFields(h, WithContext(l, ctx), f).0;
      ValidIn(h', l) && forall k :: k in f ==> k in FieldsOf(h', l) && FieldsOf(h', l)[k] == f[k]
  {
  }

  // ---------------------------------------------------------------------------
  // JSONFormat and Output

  const ReservedKeys: set<string> := {"level", "time", "message", "callers"}

  /** The callers slice as a field value: a nil slice is `null`, any other a list. */
  function CallersValue(callers: Option<seq<string>>): Value
  {
    match callers
    case None => Null
    case Some(c) => TextList(c)
  }

  /** The four entries every record carries; `now` is the local time in nanoseconds. */
  function ReservedEntries(level: Level, message: string, now: int, callers: Option<seq<string>>): (m: Fields)
    ensures m.Keys == ReservedKeys
    ensures forall k :: k in m ==> Encodable(m[k])
  {
    map["level" := Text(LevelName(level)), "time" := Number(now), "message" := Text(message), "callers" := CallersValue(callers)]
  }

  /**
   * The loop of `JSONFormat`: visits the keys of `fields` in an arbitrary
   * order, as Go's map iteration does, and adds each key `data` lacks.
   */
  method AddAbsent(data0: Fields, fields: Fields) returns (data: Fields)
    ensures data == fields + data0
  {
    data := data0;
    var pending := fields.Keys;
    while pending != {}
      invariant pending <= fields.Keys
      invariant data.Keys == data0.Keys + (fields.Keys - pending)
      invariant forall k :: k in data0 ==> data[k] == data0[k]
      invariant forall k :: k in fields && k !in pending && k !in data0 ==> data[k] == fields[k]
      decreases pending
    {
      var k :| k in pending;
      if k !in data {
        data := data[k := fields[k]];
      }
      pending := pending - {k};
    }
    var merged := fields + data0;
    assert data.Keys == merged.Keys;
    assert forall k :: k in data ==> data[k] == merged[k];
  }

  /**
   * `JSONFormat`: the reserved entries, then every field whose key is not
   * reserved. The result is the fields overridden by the reserved entries.
   */
  method JSONFormat(h: Heap, l: Logger, level: Level, message: string, now: int) returns (data: Fields)
    requires ValidIn(h, l)
    ensures data.Keys == ReservedKeys + FieldsOf(h, l).Keys
    ensures data == FieldsOf(h, l) + ReservedEntries(level, message, now, l.callers)
  {
    data := ReservedEntries(level, message, now, l.callers);
    if |FieldsOf(h, l)| > 0 {
      data := AddAbsent(data, FieldsOf(h, l));
    }
  }

  /**
   * A record holds the level name, time, message and callers under the
   * reserved keys whatever the fields say, and every other field unchanged.
   */
  lemma RecordReservedWin(fields: Fields, level: Level, message: string, now: int, callers: Option<seq<string>>)
    ensures var data := fields + ReservedEntries(level, message, now, callers);
      && data["level"] == Text(LevelName(level))
      && data["time"] == Number(now)
      && data["message"] == Text(message)
      && data["callers"] == CallersValue(callers)
      && forall k :: k in fields && k !in ReservedKeys ==> data[k] == fields[k]
  {
  }

  /** The text `json.Marshal` produces: the record's JSON, or "" when it fails. */
  datatype Body = Json(record: Fields) | EmptyText

  /** `json.Marshal` of a record; it fails when some value cannot be encoded. */
  function Marshal(record: Fields): (b: Body)
    ensures b == EmptyText <==> exists k :: k in record && !Encodable(record[k])
    ensures b.Json? ==> b.record == record
  {
    if forall k | k in record :: Encodable(record[k]) then Json(record) else EmptyText
  }

  /**
   * A record encodes exactly when its non-reserved fields do: the reserved
   * entries are always encodable and hide any field under the same key.
   */
  lemma RecordEncodable(fields: Fields, level: Level, message: string, now: int, callers: Option<seq<string>>)
    ensures var data := fields + ReservedEntries(level, message, now, callers);
      Marshal(data).Json? <==> forall k :: k in fields && k !in ReservedKeys ==> Encodable(fields[k])
  {
  }

  /** What `Output` does with the encoded record: print it, print and exit, print and panic, or nothing. */
  datatype Outcome = Printed(body: Body) | Exited(body: Body) | Panicked(body: Body) | Silent

  /**
   * `Output`. The error of `json.Marshal` is discarded, so a record with an
   * unencodable field is written as "". Levels outside the six named ones
   * fall through the switch and write nothing.
   */
  method Output(h: Heap, l: Logger, level: Level, message: string, now: int) returns (o: Outcome)
    requires ValidIn(h, l)
    ensures LevelDebug <= level <= LevelError ==> o.Printed?
    ensures level == LevelFatal ==> o.Exited?
    ensures level == LevelPanic ==> o.Panicked?
    ensures o == Silent <==> LevelName(level) == ""
    ensures !o.Silent? ==>
      (o.body.Json? <==> forall k :: k in FieldsOf(h, l) && k !in ReservedKeys ==> Encodable(FieldsOf(h, l)[k]))
    ensures !o.Silent? && o.body.Json? ==>
      o.body.record == FieldsOf(h, l) + ReservedEntries(level, message, now, l.callers)
  {
    var data := JSONFormat(h, l, level, message, now);
    RecordEncodable(FieldsOf(h, l), level, message, now, l.callers);
    var content := Marshal(data);
    if level == LevelDebug || level == LevelInfo || level == LevelWarn || level == LevelError {
      o := Printed(content);
    } else if level == LevelFatal {
      o := Exited(content);
    } else if level == LevelPanic {
      o := Panicked(content);
    } else {
      o := Silent;
    }
  }
}
