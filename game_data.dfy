/**
  Loading the quest and item catalogs from their text format (game_data.py).

  A data file is a sequence of blocks separated by blank lines; each block is
  a sequence of `KEY: value` lines. A block is parsed into a field record,
  the record is validated, and the validated record is stored in the catalog
  under its own id. Reading the file from disk is not part of this model: the
  loaders take the file's content.
 */
module GameData {
  import opened Results
  import opened Text
  import opened Catalogs
  import opened Seqs

  /** The prerequisite value meaning "no prerequisite". */
  const NoPrerequisite := "NONE"

  datatype Quest = Quest(
    questId: string,
    title: string,
    description: string,
    rewardXp: int,
    rewardGold: int,
    requiredLevel: int,
    prerequisite: string)

  datatype Item = Item(
    itemId: string,
    name: string,
    itemType: string,
    effect: string,
    cost: int,
    description: string)

  type QuestCatalog = Catalog<Quest>
  type ItemCatalog = Catalog<Item>

  /** A field value as the block parsers store it: converted to int, or stripped text. */
  datatype FieldValue = Text(text: string) | Number(number: int)

  /** The record fields the two block parsers know (the values of their `mapping` dicts). */
  datatype Field =
    | QuestId | Title | Description | RewardXp | RewardGold | RequiredLevel | Prerequisite
    | ItemId | Name | Type | Effect | Cost

  type Fields = map<Field, FieldValue>

  /** Fields converted with `int()` by the parsers. */
  predicate IsNumeric(f: Field) {
    f.RewardXp? || f.RewardGold? || f.RequiredLevel? || f.Cost?
  }

  datatype Schema = QuestBlock | ItemBlock

  /** The key a data file writes for each field. */
  function KeyOf(field: Field): string {
    match field
    case QuestId => "QUEST_ID"
    case Title => "TITLE"
    case Description => "DESCRIPTION"
    case RewardXp => "REWARD_XP"
    case RewardGold => "REWARD_GOLD"
    case RequiredLevel => "REQUIRED_LEVEL"
    case Prerequisite => "PREREQUISITE"
    case ItemId => "ITEM_ID"
    case Name => "NAME"
    case Type => "TYPE"
    case Effect => "EFFECT"
    case Cost => "COST"
  }

  /**
    The fields of each kind of block, in the order of the parsers' `mapping`
    dicts and of the validators' `required_fields` dicts (which have the same
    keys in the same order).
   */
  const QuestFields := [QuestId, Title, Description, RewardXp, RewardGold, RequiredLevel, Prerequisite]
  const ItemFields := [ItemId, Name, Type, Effect, Cost, Description]

  function SchemaFields(schema: Schema): seq<Field> {
    match schema
    case QuestBlock => QuestFields
    case ItemBlock => ItemFields
  }

  /** The first of `fields` whose file key is `key`. */
  function Lookup(key: string, fields: seq<Field>): Option<Field> {
    if fields == [] then None
    else if KeyOf(fields[0]) == key then Some(fields[0])
    else Lookup(key, fields[1..])
  }

  /** `mapping.get(key)`, `None` for a key the parser skips. */
  function FieldOf(schema: Schema, key: string): Option<Field> {
    Lookup(key, SchemaFields(schema))
  }

  // ------------------------------------------------------------ block parsing

  /** The message both block parsers raise for a `ValueError` (game_data.py:208, 236). */
  function ParseErrorMessage(reason: string): string {
    ParseErrorPrefix + reason
  }

  const ParseErrorPrefix := "Error parsing numeric or key/value pair: "

  lemma ParseErrorMessagePrefix(reason: string)
    ensures ParseErrorPrefix <= ParseErrorMessage(reason)
  {
    assert ParseErrorMessage(reason)[..|ParseErrorPrefix|] == ParseErrorPrefix;
  }

  /** CPython's `ValueError` text when `line.split(': ', 1)` yields one piece for two names. */
  const UnpackMessage := "not enough values to unpack (expected 2, got 1)"

  /** CPython's `ValueError` text for `int(s)`, with `repr(s)` written as `s` between single quotes. */
  function IntLiteralMessage(s: string): string {
    "invalid literal for int() with base 10: '" + s + "'"
  }

  /** An entry the block parser rejects: a numeric field whose value is not an integer. */
  predicate EntryRejected(schema: Schema, key: string, value: string) {
    var field := FieldOf(schema, Strip(key));
    field.Some? && IsNumeric(field.value) && ParseInt(Strip(value)).None?
  }

  /**
    The body of the parsing loop after the split: skip an unknown key, convert
    a numeric field with `int()`, strip a text field.
   */
  function StoreEntry(schema: Schema, fields: Fields, key: string, value: string): Result<Fields> {
    match FieldOf(schema, Strip(key))
    case None => Success(fields)
    case Some(field) =>
      if IsNumeric(field) then
        match ParseInt(Strip(value))
        case None => Failure(InvalidDataFormat(ParseErrorMessage(IntLiteralMessage(Strip(value)))))
        case Some(n) => Success(fields[field := Number(n)])
      else Success(fields[field := Text(Strip(value))])
  }

  /** Only a rejected entry fails, and an unknown key leaves the record as it was. */
  lemma StoreEntrySpec(schema: Schema, fields: Fields, key: string, value: string)
    ensures StoreEntry(schema, fields, key, value).Failure? <==> EntryRejected(schema, key, value)
    ensures FieldOf(schema, Strip(key)).None? ==> StoreEntry(schema, fields, key, value) == Success(fields)
  {
  }

  /** A line the block parser rejects: no `": "` in it, or a rejected entry. */
  predicate LineRejected(schema: Schema, line: string) {
    match SplitOnce(line, ": ")
    case None => true
    case Some(kv) => EntryRejected(schema, kv.0, kv.1)
  }

  /** One iteration of the parsing loop: split at the first `": "`, then store the entry. */
  function ParseLine(schema: Schema, fields: Fields, line: string): Result<Fields> {
    match SplitOnce(line, ": ")
    case None => Failure(InvalidDataFormat(ParseErrorMessage(UnpackMessage)))
    case Some(kv) => StoreEntry(schema, fields, kv.0, kv.1)
  }

  /** A line fails exactly when it is rejected. */
  lemma ParseLineSpec(schema: Schema, fields: Fields, line: string)
    ensures ParseLine(schema, fields, line).Failure? <==> LineRejected(schema, line)
  {
    match SplitOnce(line, ": ")
    case None =>
    case Some(kv) => StoreEntrySpec(schema, fields, kv.0, kv.1);
  }

  /** The parsing loop as a fold: the first rejected line aborts the whole block. */
  function ParseLines(schema: Schema, lines: seq<string>, fields: Fields): Result<Fields> {
    if lines == [] then Success(fields)
    else
      match ParseLine(schema, fields, lines[0])
      case Failure(e) => Failure(e)
      case Success(next) => ParseLines(schema, lines[1..], next)
  }

  /**
    `parse_quest_block` / `parse_item_block`: the loop that fills the record
    line by line; `schema` is `QuestSchema` or `ItemSchema`.
   */
  method ParseBlock(schema: Schema, lines: seq<string>) returns (r: Result<Fields>)
    ensures r == ParseLines(schema, lines, map[])
  {
    var fields: Fields := map[];
    var i := 0;
    while i < |lines|
      invariant 0 <= i <= |lines|
      invariant ParseLines(schema, lines, map[]) == ParseLines(schema, lines[i..], fields)
    {
      assert lines[i..][1..] == lines[i + 1..];
      var step := ParseLine(schema, fields, lines[i]);
      if step.Failure? {
        return Failure(step.error);
      }
      fields := step.value;
      i := i + 1;
    }
    assert lines[i..] == [];
    return Success(fields);
  }

  /** A block is rejected exactly when one of its lines is. */
  lemma {:induction false} ParseLinesFailsIff(schema: Schema, lines: seq<string>, fields: Fields)
    ensures ParseLines(schema, lines, fields).Failure? <==> AnyRejected(schema, lines)
  {
    if lines != [] {
      AnyRejectedCons(schema, lines);
      ParseLineSpec(schema, fields, lines[0]);
      var step := ParseLine(schema, fields, lines[0]);
      if step.Success? {
        ParseLinesFailsIff(schema, lines[1..], step.value);
      }
    }
  }

  /** Some line of the block is rejected. */
  ghost predicate AnyRejected(schema: Schema, lines: seq<string>) {
    exists i :: 0 <= i < |lines| && LineRejected(schema, lines[i])
  }

  lemma AnyRejectedCons(schema: Schema, lines: seq<string>)
    requires lines != []
    ensures AnyRejected(schema, lines) <==> LineRejected(schema, lines[0]) || AnyRejected(schema, lines[1..])
  {
    if AnyRejected(schema, lines) && !LineRejected(schema, lines[0]) {
      var i :| 0 <= i < |lines| && LineRejected(schema, lines[i]);
      assert lines[1..][i - 1] == lines[i];
    }
    if AnyRejected(schema, lines[1..]) {
      var i :| 0 <= i < |lines[1..]| && LineRejected(schema, lines[1..][i]);
      assert lines[i + 1] == lines[1..][i];
    }
  }

  /** Numeric fields hold ints and every other field holds text. */
  ghost predicate WellTyped(fields: Fields) {
    forall f :: f in fields ==> (fields[f].Number? <==> IsNumeric(f))
  }

  lemma ParseLineWellTyped(schema: Schema, fields: Fields, line: string)
    requires WellTyped(fields)
    ensures ParseLine(schema, fields, line).Success? ==> WellTyped(ParseLine(schema, fields, line).value)
  {
    match SplitOnce(line, ": ")
    case None =>
    case Some(kv) =>
      match FieldOf(schema, Strip(kv.0))
      case None =>
      case Some(field) =>
        if IsNumeric(field) {
          match ParseInt(Strip(kv.1))
          case None =>
          case Some(n) => UpdateWellTyped(fields, field, Number(n));
        } else {
          UpdateWellTyped(fields, field, Text(Strip(kv.1)));
        }
  }

  lemma UpdateWellTyped(fields: Fields, field: Field, v: FieldValue)
    requires WellTyped(fields) && (v.Number? <==> IsNumeric(field))
    ensures WellTyped(fields[field := v])
  {
  }

  lemma {:induction false} ParseLinesWellTyped(schema: Schema, lines: seq<string>, fields: Fields)
    requires WellTyped(fields)
    ensures ParseLines(schema, lines, fields).Success? ==> WellTyped(ParseLines(schema, lines, fields).value)
  {
    if lines != [] {
      var step := ParseLine(schema, fields, lines[0]);
      ParseLineWellTyped(schema, fields, lines[0]);
      if step.Success? {
        ParseLinesWellTyped(schema, lines[1..], step.value);
      }
    }
  }

  // --------------------------------------------------------------- validation

  predicate NonNegativeInt(v: FieldValue) {
    v.Number? && v.number >= 0
  }

  /** The dictionary key the validators name a field by. */
  function FieldName(field: Field): string {
    match field
    case QuestId => "quest_id"
    case Title => "title"
    case Description => "description"
    case RewardXp => "reward_xp"
    case RewardGold => "reward_gold"
    case RequiredLevel => "required_level"
    case Prerequisite => "prerequisite"
    case ItemId => "item_id"
    case Name => "name"
    case Type => "type"
    case Effect => "effect"
    case Cost => "cost"
  }

  /** The validators' message for a missing field (game_data.py:84, 103). */
  function MissingMessage(schema: Schema, field: Field): string {
    match schema
    case QuestBlock => "Quest is missing required field: " + KeyOf(field)
    case ItemBlock => "Item is missing required field: " + KeyOf(field)
  }

  /** The validators' message for a field they reject (game_data.py:90, 108, 111). */
  function InvalidMessage(schema: Schema, field: Field, v: FieldValue): string {
    match schema
    case QuestBlock => "Quest field '" + FieldName(field) + "' must be a non-negative integer."
    case ItemBlock =>
      if field == Type then "Item type '" + AsText(v) + "' is invalid. Must be one of: weapon, armor, consumable"
      else "Item cost must be a non-negative integer."
  }

  /**
    The loop over `required_fields.items()`: the first field, in declaration
    order, that is missing or that `bad` rejects, reported with the
    validator's message for it.
   */
  function FirstFieldError(schema: Schema, fields: Fields, required: seq<Field>, bad: (Field, FieldValue) -> bool): (r: Option<Error>)
    ensures r.Some? ==> r.value.InvalidDataFormat?
    ensures r.None? <==> forall i :: 0 <= i < |required| ==> required[i] in fields && !bad(required[i], fields[required[i]])
    ensures required != [] && required[0] !in fields ==> r == Some(InvalidDataFormat(MissingMessage(schema, required[0])))
    ensures required != [] && required[0] in fields && bad(required[0], fields[required[0]]) ==>
      r == Some(InvalidDataFormat(InvalidMessage(schema, required[0], fields[required[0]])))
  {
    if required == [] then None
    else if required[0] !in fields then Some(InvalidDataFormat(MissingMessage(schema, required[0])))
    else if bad(required[0], fields[required[0]]) then Some(InvalidDataFormat(InvalidMessage(schema, required[0], fields[required[0]])))
    else FirstFieldError(schema, fields, required[1..], bad)
  }

  /** Text of a field; a number is read as its decimal digits (the parser never puts one in a text field). */
  function AsText(v: FieldValue): string {
    match v
    case Text(s) => s
    case Number(n) => IntToString(n)
  }

  function AsInt(v: FieldValue): int {
    match v
    case Text(_) => 0
    case Number(n) => n
  }

  const ItemTypes := ["weapon", "armor", "consumable"]

  predicate QuestFieldBad(field: Field, v: FieldValue) {
    IsNumeric(field) && !NonNegativeInt(v)
  }

  predicate ItemFieldBad(field: Field, v: FieldValue) {
    || (field == Type && !(v.Text? && v.text in ItemTypes))
    || (field == Cost && !NonNegativeInt(v))
  }

  /**
    `validate_quest_data`, returning the typed quest where the source returns
    `True`: all seven fields present, the three numeric ones non-negative ints.
   */
  function ValidateQuestData(fields: Fields): (r: Result<Quest>)
    ensures r.Success? <==>
      && QuestId in fields && Title in fields && Description in fields
      && RewardXp in fields && RewardGold in fields && RequiredLevel in fields
      && Prerequisite in fields
      && NonNegativeInt(fields[RewardXp]) && NonNegativeInt(fields[RewardGold])
      && NonNegativeInt(fields[RequiredLevel])
    ensures r.Failure? ==> r.error.InvalidDataFormat?
    ensures r.Success? ==>
      && r.value.rewardXp == fields[RewardXp].number >= 0
      && r.value.rewardGold == fields[RewardGold].number >= 0
      && r.value.requiredLevel == fields[RequiredLevel].number >= 0
      && r.value.questId == AsText(fields[QuestId])
      && r.value.title == AsText(fields[Title])
      && r.value.description == AsText(fields[Description])
      && r.value.prerequisite == AsText(fields[Prerequisite])
  {
    var q := QuestFields;
    assert q[0] == QuestId && q[1] == Title && q[2] == Description && q[3] == RewardXp;
    assert q[4] == RewardGold && q[5] == RequiredLevel && q[6] == Prerequisite;
    match FirstFieldError(QuestBlock, fields, q, QuestFieldBad)
    case Some(e) => Failure(e)
    case None =>
      Success(Quest(
        AsText(fields[QuestId]), AsText(fields[Title]), AsText(fields[Description]),
        AsInt(fields[RewardXp]), AsInt(fields[RewardGold]), AsInt(fields[RequiredLevel]),
        AsText(fields[Prerequisite])))
  }

  /**
    `validate_item_data`, returning the typed item: all six fields present,
    `type` one of weapon/armor/consumable, `cost` a non-negative int.
   */
  function ValidateItemData(fields: Fields): (r: Result<Item>)
    ensures r.Success? <==>
      && ItemId in fields && Name in fields && Type in fields
      && Effect in fields && Cost in fields && Description in fields
      && fields[Type].Text? && fields[Type].text in ItemTypes
      && NonNegativeInt(fields[Cost])
    ensures r.Failure? ==> r.error.InvalidDataFormat?
    ensures r.Success? ==>
      && r.value.itemType in ItemTypes
      && r.value.cost == fields[Cost].number >= 0
      && r.value.itemId == AsText(fields[ItemId])
      && r.value.name == AsText(fields[Name])
      && r.value.itemType == AsText(fields[Type])
      && r.value.effect == AsText(fields[Effect])
      && r.value.description == AsText(fields[Description])
  {
    var q := ItemFields;
    assert q[0] == ItemId && q[1] == Name && q[2] == Type;
    assert q[3] == Effect && q[4] == Cost && q[5] == Description;
    match FirstFieldError(ItemBlock, fields, q, ItemFieldBad)
    case Some(e) => Failure(e)
    case None =>
      Success(Item(
        AsText(fields[ItemId]), AsText(fields[Name]), AsText(fields[Type]),
        AsText(fields[Effect]), AsInt(fields[Cost]), AsText(fields[Description])))
  }

  // ------------------------------------------------------------------ loading

  /** `[p.strip() for p in parts if p.strip()]`. */
  function StrippedNonEmpty(parts: seq<string>): (r: seq<string>)
    ensures |r| <= |parts|
    ensures forall p :: p in r ==> p != [] && IsStripped(p)
  {
    if parts == [] then []
    else
      var p := Strip(parts[0]);
      (if p == [] then [] else [p]) + StrippedNonEmpty(parts[1..])
  }

  /** The blocks of a data file (game_data.py:36): separated by "\n\n", stripped, empty ones dropped. */
  function Blocks(content: string): seq<string> {
    StrippedNonEmpty(Split(content, "\n\n"))
  }

  /** The lines of a block (game_data.py:45): stripped, empty ones dropped. */
  function BlockLines(block: string): seq<string> {
    StrippedNonEmpty(Split(block, "\n"))
  }

  /**
    Parse then validate the lines of one quest block (game_data.py:45-48);
    a format error is re-raised naming the quests file (game_data.py:50-52).
   */
  function DecodeQuest(block: string): Result<Quest> {
    match DecodeQuestLines(BlockLines(block))
    case Failure(e) => Failure(InvalidDataFormat("Quests file format error: " + Message(e)))
    case Success(q) => Success(q)
  }

  function DecodeQuestLines(lines: seq<string>): Result<Quest> {
    match ParseLines(QuestBlock, lines, map[])
    case Failure(e) => Failure(e)
    case Success(fields) => ValidateQuestData(fields)
  }

  /**
    Parse then validate the lines of one item block (game_data.py:62-65);
    a format error is re-raised naming the items file (game_data.py:67-69).
   */
  function DecodeItem(block: string): Result<Item> {
    match DecodeItemLines(BlockLines(block))
    case Failure(e) => Failure(InvalidDataFormat("Items file format error: " + Message(e)))
    case Success(it) => Success(it)
  }

  function DecodeItemLines(lines: seq<string>): Result<Item> {
    match ParseLines(ItemBlock, lines, map[])
    case Failure(e) => Failure(e)
    case Success(fields) => ValidateItemData(fields)
  }

  /** The message of a format error, the only kind the block parsers raise (see `DecodeQuestError`). */
  function Message(e: Error): string {
    if e.InvalidDataFormat? then e.detail else ""
  }

  /** The loading loop as a fold: each decoded record is stored under its own id. */
  function CatalogFrom<T>(blocks: seq<string>, decode: string -> Result<T>, id: T -> string, acc: Catalog<T>): Result<Catalog<T>> {
    if blocks == [] then Success(acc)
    else
      match decode(blocks[0])
      case Failure(e) => Failure(e)
      case Success(x) => CatalogFrom(blocks[1..], decode, id, Insert(acc, id(x), x))
  }

  /** Every entry is stored under its own id. */
  ghost predicate KeyedById<T>(c: Catalog<T>, id: T -> string) {
    forall k :: k in c.entries ==> id(c.entries[k]) == k
  }

  /** `load_quests` / `load_items` on the file's content. */
  method LoadCatalog<T>(content: string, decode: string -> Result<T>, id: T -> string) returns (r: Result<Catalog<T>>)
    ensures r == CatalogFrom(Blocks(content), decode, id, Empty())
  {
    var blocks := Blocks(content);
    var catalog: Catalog<T> := Empty();
    var i := 0;
    while i < |blocks|
      invariant 0 <= i <= |blocks|
      invariant CatalogFrom(blocks, decode, id, Empty()) == CatalogFrom(blocks[i..], decode, id, catalog)
    {
      CatalogFromStep(blocks, i, decode, id, catalog);
      var record := decode(blocks[i]);
      if record.Failure? {
        return Failure(record.error);
      }
      catalog := Insert(catalog, id(record.value), record.value);
      i := i + 1;
    }
    assert blocks[i..] == [];
    return Success(catalog);
  }

  /** One turn of the loading loop: block `i` either fails the load or is stored. */
  lemma CatalogFromStep<T>(blocks: seq<string>, i: int, decode: string -> Result<T>, id: T -> string, acc: Catalog<T>)
    requires 0 <= i < |blocks|
    ensures decode(blocks[i]).Failure? ==> CatalogFrom(blocks[i..], decode, id, acc) == Failure(decode(blocks[i]).error)
    ensures decode(blocks[i]).Success? ==>
      var x := decode(blocks[i]).value;
      CatalogFrom(blocks[i..], decode, id, acc) == CatalogFrom(blocks[i + 1..], decode, id, Insert(acc, id(x), x))
  {
    assert blocks[i..][0] == blocks[i] && blocks[i..][1..] == blocks[i + 1..];
  }

  /** Loading stores every record under its own id. */
  lemma {:induction false} CatalogFromKeyed<T>(blocks: seq<string>, decode: string -> Result<T>, id: T -> string, acc: Catalog<T>)
    requires KeyedById(acc, id)
    ensures CatalogFrom(blocks, decode, id, acc).Success? ==> KeyedById(CatalogFrom(blocks, decode, id, acc).value, id)
  {
    if blocks != [] && decode(blocks[0]).Success? {
      var x := decode(blocks[0]).value;
      CatalogFromKeyed(blocks[1..], decode, id, Insert(acc, id(x), x));
    }
  }

  /** The last block wins: loading one more block stores its record over any earlier one with the same id. */
  lemma {:induction false} CatalogFromAppend<T>(blocks: seq<string>, last: string, decode: string -> Result<T>, id: T -> string, acc: Catalog<T>)
    requires CatalogFrom(blocks, decode, id, acc).Success?
    requires decode(last).Success?
    ensures CatalogFrom(blocks + [last], decode, id, acc) ==
      var x := decode(last).value;
      Success(Insert(CatalogFrom(blocks, decode, id, acc).value, id(x), x))
  {
    if blocks == [] {
      assert [last][1..] == [];
    } else {
      assert (blocks + [last])[1..] == blocks[1..] + [last];
      var x := decode(blocks[0]).value;
      CatalogFromAppend(blocks[1..], last, decode, id, Insert(acc, id(x), x));
    }
  }

  /** The load fails exactly when some block fails, and then with the error of the first one that does. */
  lemma {:induction false} CatalogFromFirstFailure<T>(blocks: seq<string>, decode: string -> Result<T>, id: T -> string, acc: Catalog<T>)
    ensures CatalogFrom(blocks, decode, id, acc).Failure? <==> exists i :: 0 <= i < |blocks| && decode(blocks[i]).Failure?
    ensures CatalogFrom(blocks, decode, id, acc).Failure? ==>
      exists i :: 0 <= i < |blocks| && decode(blocks[i]) == Failure(CatalogFrom(blocks, decode, id, acc).error)
        && forall j :: 0 <= j < i ==> decode(blocks[j]).Success?
  {
    if blocks == [] {
    } else if decode(blocks[0]).Failure? {
      assert decode(blocks[0]) == Failure(CatalogFrom(blocks, decode, id, acc).error);
    } else {
      var x := decode(blocks[0]).value;
      var next := Insert(acc, id(x), x);
      var rest := blocks[1..];
      CatalogFromFirstFailure(rest, decode, id, next);
      assert CatalogFrom(blocks, decode, id, acc) == CatalogFrom(rest, decode, id, next);
      if exists i :: 0 <= i < |blocks| && decode(blocks[i]).Failure? {
        var i :| 0 <= i < |blocks| && decode(blocks[i]).Failure?;
        assert i > 0 && rest[i - 1] == blocks[i];
      }
      if CatalogFrom(rest, decode, id, next).Failure? {
        var e := CatalogFrom(rest, decode, id, next).error;
        var k :| 0 <= k < |rest| && decode(rest[k]) == Failure(e) && forall j :: 0 <= j < k ==> decode(rest[j]).Success?;
        assert rest[k] == blocks[k + 1];
        forall j | 0 <= j < k + 1 ensures decode(blocks[j]).Success? {
          if j > 0 { assert blocks[j] == rest[j - 1]; }
        }
      }
    }
  }

  /** A parser error is a format error whose message starts with the parsers' prefix. */
  predicate IsParseError(e: Error) {
    e.InvalidDataFormat? && ParseErrorPrefix <= e.detail
  }

  lemma ParseLineFormatError(schema: Schema, fields: Fields, line: string)
    ensures ParseLine(schema, fields, line).Failure? ==> IsParseError(ParseLine(schema, fields, line).error)
  {
    match SplitOnce(line, ": ")
    case None =>
      assert ParseLine(schema, fields, line) == Failure(InvalidDataFormat(ParseErrorMessage(UnpackMessage)));
      ParseErrorMessagePrefix(UnpackMessage);
    case Some(kv) =>
      assert ParseLine(schema, fields, line) == StoreEntry(schema, fields, kv.0, kv.1);
      StoreEntryFormatError(schema, fields, kv.0, kv.1);
  }

  lemma StoreEntryFormatError(schema: Schema, fields: Fields, key: string, value: string)
    ensures StoreEntry(schema, fields, key, value).Failure? ==> IsParseError(StoreEntry(schema, fields, key, value).error)
  {
    match FieldOf(schema, Strip(key))
    case None =>
    case Some(field) =>
      if IsNumeric(field) && ParseInt(Strip(value)).None? {
        ParseErrorMessagePrefix(IntLiteralMessage(Strip(value)));
      }
  }

  /** Every error the block parser reports is a format error carrying the parsers' prefix. */
  lemma {:induction false} ParseLinesFormatError(schema: Schema, lines: seq<string>, fields: Fields)
    ensures ParseLines(schema, lines, fields).Failure? ==> IsParseError(ParseLines(schema, lines, fields).error)
  {
    if lines != [] {
      var step := ParseLine(schema, fields, lines[0]);
      ParseLineFormatError(schema, fields, lines[0]);
      if step.Success? {
        ParseLinesFormatError(schema, lines[1..], step.value);
      }
    }
  }

  /** A quest block fails exactly when its lines do, with their message behind the quests file's name. */
  lemma DecodeQuestError(block: string)
    ensures DecodeQuest(block).Failure? <==> DecodeQuestLines(BlockLines(block)).Failure?
    ensures DecodeQuest(block).Failure? ==>
      && DecodeQuestLines(BlockLines(block)).error.InvalidDataFormat?
      && DecodeQuest(block).error == InvalidDataFormat("Quests file format error: " + DecodeQuestLines(BlockLines(block)).error.detail)
  {
    var lines := BlockLines(block);
    QuestLinesFormatError(lines);
  }

  lemma QuestLinesFormatError(lines: seq<string>)
    ensures DecodeQuestLines(lines).Failure? ==> DecodeQuestLines(lines).error.InvalidDataFormat?
  {
    ParseLinesFormatError(QuestBlock, lines, map[]);
  }

  /** An item block fails exactly when its lines do, with their message behind the items file's name. */
  lemma DecodeItemError(block: string)
    ensures DecodeItem(block).Failure? <==> DecodeItemLines(BlockLines(block)).Failure?
    ensures DecodeItem(block).Failure? ==>
      && DecodeItemLines(BlockLines(block)).error.InvalidDataFormat?
      && DecodeItem(block).error == InvalidDataFormat("Items file format error: " + DecodeItemLines(BlockLines(block)).error.detail)
  {
    var lines := BlockLines(block);
    ItemLinesFormatError(lines);
  }

  lemma ItemLinesFormatError(lines: seq<string>)
    ensures DecodeItemLines(lines).Failure? ==> DecodeItemLines(lines).error.InvalidDataFormat?
  {
    ParseLinesFormatError(ItemBlock, lines, map[]);
  }

  /**
    Block `i` is the first whose lines fail to parse or validate, and
    `detail` is its format error's message behind the quests file's name.
   */
  predicate FirstQuestBlockError(bs: seq<string>, i: int, detail: string) {
    && 0 <= i < |bs|
    && DecodeQuestLines(BlockLines(bs[i])).Failure?
    && DecodeQuestLines(BlockLines(bs[i])).error.InvalidDataFormat?
    && detail == "Quests file format error: " + DecodeQuestLines(BlockLines(bs[i])).error.detail
    && forall j :: 0 <= j < i ==> DecodeQuestLines(BlockLines(bs[j])).Success?
  }

  /**
    `load_quests` fails exactly when the lines of some block fail to parse
    or validate, and then with a format error naming the quests file in
    front of the message of the first block that failed.
   */
  lemma LoadQuestsError(content: string)
    ensures var bs := Blocks(content); var r := CatalogFrom(bs, DecodeQuest, QuestIdOf, Empty());
      r.Failure? <==> exists i :: 0 <= i < |bs| && DecodeQuestLines(BlockLines(bs[i])).Failure?
    ensures var bs := Blocks(content); var r := CatalogFrom(bs, DecodeQuest, QuestIdOf, Empty());
      r.Failure? ==> r.error.InvalidDataFormat? && exists i :: FirstQuestBlockError(bs, i, r.error.detail)
  {
    var bs := Blocks(content);
    var r := CatalogFrom(bs, DecodeQuest, QuestIdOf, Empty());
    CatalogFromFirstFailure(bs, DecodeQuest, QuestIdOf, Empty());
    forall i | 0 <= i < |bs| ensures DecodeQuest(bs[i]).Failure? <==> DecodeQuestLines(BlockLines(bs[i])).Failure? {
      DecodeQuestError(bs[i]);
    }
    if r.Failure? {
      var i :| 0 <= i < |bs| && DecodeQuest(bs[i]) == Failure(r.error) && forall j :: 0 <= j < i ==> DecodeQuest(bs[j]).Success?;
      DecodeQuestError(bs[i]);
      assert FirstQuestBlockError(bs, i, r.error.detail);
    }
  }


  /**
    Block `i` is the first whose lines fail to parse or validate, and
    `detail` is its format error's message behind the items file's name.
   */
  predicate FirstItemBlockError(bs: seq<string>, i: int, detail: string) {
    && 0 <= i < |bs|
    && DecodeItemLines(BlockLines(bs[i])).Failure?
    && DecodeItemLines(BlockLines(bs[i])).error.InvalidDataFormat?
    && detail == "Items file format error: " + DecodeItemLines(BlockLines(bs[i])).error.detail
    && forall j :: 0 <= j < i ==> DecodeItemLines(BlockLines(bs[j])).Success?
  }

  /**
    `load_items` fails exactly when the lines of some block fail to parse
    or validate, and then with a format error naming the items file in
    front of the message of the first block that failed.
   */
  lemma LoadItemsError(content: string)
    ensures var bs := Blocks(content); var r := CatalogFrom(bs, DecodeItem, ItemIdOf, Empty());
      r.Failure? <==> exists i :: 0 <= i < |bs| && DecodeItemLines(BlockLines(bs[i])).Failure?
    ensures var bs := Blocks(content); var r := CatalogFrom(bs, DecodeItem, ItemIdOf, Empty());
      r.Failure? ==> r.error.InvalidDataFormat? && exists i :: FirstItemBlockError(bs, i, r.error.detail)
  {
    var bs := Blocks(content);
    var r := CatalogFrom(bs, DecodeItem, ItemIdOf, Empty());
    CatalogFromFirstFailure(bs, DecodeItem, ItemIdOf, Empty());
    forall i | 0 <= i < |bs| ensures DecodeItem(bs[i]).Failure? <==> DecodeItemLines(BlockLines(bs[i])).Failure? {
      DecodeItemError(bs[i]);
    }
    if r.Failure? {
      var i :| 0 <= i < |bs| && DecodeItem(bs[i]) == Failure(r.error) && forall j :: 0 <= j < i ==> DecodeItem(bs[j]).Success?;
      DecodeItemError(bs[i]);
      assert FirstItemBlockError(bs, i, r.error.detail);
    }
  }


  function QuestIdOf(q: Quest): string { q.questId }

  function ItemIdOf(it: Item): string { it.itemId }

  /** `load_quests` on the quests file's content: every quest stored under its `quest_id`. */
  method LoadQuests(content: string) returns (r: Result<QuestCatalog>)
    ensures r == CatalogFrom(Blocks(content), DecodeQuest, QuestIdOf, Empty())
    ensures r.Success? ==> forall k :: k in r.value.entries ==> r.value.entries[k].questId == k
  {
    r := LoadCatalog(content, DecodeQuest, QuestIdOf);
    CatalogFromKeyed(Blocks(content), DecodeQuest, QuestIdOf, Empty());
  }

  /** `load_items` on the items file's content: every item stored under its `item_id`. */
  method LoadItems(content: string) returns (r: Result<ItemCatalog>)
    ensures r == CatalogFrom(Blocks(content), DecodeItem, ItemIdOf, Empty())
    ensures r.Success? ==> forall k :: k in r.value.entries ==> r.value.entries[k].itemId == k
  {
    r := LoadCatalog(content, DecodeItem, ItemIdOf);
    CatalogFromKeyed(Blocks(content), DecodeItem, ItemIdOf, Empty());
  }

  // ----------------------------------------------------------- the file format

  predicate InSchema(schema: Schema, field: Field) {
    field in SchemaFields(schema)
  }

  /** No two fields share a file key. */
  lemma KeyOfInjective(a: Field, b: Field)
    ensures KeyOf(a) == KeyOf(b) ==> a == b
  {
    if a != b {
      match a
      case QuestId =>
      case Title =>
      case Description =>
      case RewardXp =>
      case RewardGold =>
      case RequiredLevel =>
      case Prerequisite =>
      case ItemId =>
      case Name =>
      case Type =>
      case Effect =>
      case Cost =>
    }
  }

  lemma {:induction false} LookupFinds(fields: seq<Field>, field: Field)
    requires NoDuplicates(fields) && field in fields
    ensures Lookup(KeyOf(field), fields) == Some(field)
  {
    if fields[0] != field {
      KeyOfInjective(fields[0], field);
      assert field in fields[1..];
      LookupFinds(fields[1..], field);
    }
  }

  /** Each field's key maps back to the field, and splits cleanly at `": "`. */
  lemma KeyOfField(schema: Schema, field: Field)
    requires InSchema(schema, field)
    ensures FieldOf(schema, KeyOf(field)) == Some(field)
    ensures ':' !in KeyOf(field) && IsStripped(KeyOf(field))
  {
    assert NoDuplicates(SchemaFields(schema));
    LookupFinds(SchemaFields(schema), field);
    KeyOfClean(field);
  }

  lemma KeyOfClean(field: Field)
    ensures ':' !in KeyOf(field) && IsStripped(KeyOf(field)) && IsLine(KeyOf(field))
  {
    match field
    case QuestId =>
    case Title =>
    case Description =>
    case RewardXp =>
    case RewardGold =>
    case RequiredLevel =>
    case Prerequisite =>
    case ItemId =>
    case Name =>
    case Type =>
    case Effect =>
    case Cost =>
  }

  /** One `KEY: value` line as the data files write it (game_data.py:130-169). */
  function RenderLine(field: Field, v: FieldValue): string {
    KeyOf(field) + ": " + AsText(v)
  }

  /** The lines for a list of (field, value) entries, in order. */
  function RenderLines(entries: seq<(Field, FieldValue)>): (lines: seq<string>)
    ensures |lines| == |entries|
  {
    if entries == [] then []
    else [RenderLine(entries[0].0, entries[0].1)] + RenderLines(entries[1..])
  }

  /** The record those entries describe, stored over `fields`. */
  function StoreAll(entries: seq<(Field, FieldValue)>, fields: Fields): Fields {
    if entries == [] then fields
    else StoreAll(entries[1..], fields[entries[0].0 := entries[0].1])
  }

  lemma StoreAllFrom(entries: seq<(Field, FieldValue)>, k: nat, fields: Fields)
    requires k < |entries|
    ensures StoreAll(entries[k..], fields) == StoreAll(entries[k + 1..], fields[entries[k].0 := entries[k].1])
  {
    assert entries[k..][1..] == entries[k + 1..];
  }

  /**
    An entry the parser reads back as written: a field of this kind of block,
    a value of the field's type, and text without surrounding whitespace.
   */
  predicate Readable(schema: Schema, e: (Field, FieldValue)) {
    && InSchema(schema, e.0)
    && (IsNumeric(e.0) <==> e.1.Number?)
    && (e.1.Text? ==> IsStripped(e.1.text))
  }

  /** A `KEY: value` line whose key has no colon is the entry (`KEY`, `value`). */
  lemma ParseKeyLine(schema: Schema, fields: Fields, key: string, value: string)
    requires ':' !in key
    ensures ParseLine(schema, fields, key + ": " + value) == StoreEntry(schema, fields, key, value)
  {
    SplitOnceKeyValue(key, value);
  }

  lemma StoreText(schema: Schema, fields: Fields, key: string, field: Field, value: string)
    requires IsStripped(key) && FieldOf(schema, key) == Some(field) && !IsNumeric(field)
    requires IsStripped(value)
    ensures StoreEntry(schema, fields, key, value) == Success(fields[field := Text(value)])
  {
    StripOfStripped(key);
    StripOfStripped(value);
    assert FieldOf(schema, Strip(key)) == Some(field);
  }

  lemma StoreParsed(schema: Schema, fields: Fields, key: string, field: Field, value: string, n: int)
    requires FieldOf(schema, Strip(key)) == Some(field) && IsNumeric(field) && ParseInt(Strip(value)) == Some(n)
    ensures StoreEntry(schema, fields, key, value) == Success(fields[field := Number(n)])
  {
  }

  lemma StoreNumber(schema: Schema, fields: Fields, key: string, field: Field, n: int)
    requires IsStripped(key) && FieldOf(schema, key) == Some(field) && IsNumeric(field)
    ensures StoreEntry(schema, fields, key, IntToString(n)) == Success(fields[field := Number(n)])
  {
    var text := IntToString(n);
    assert Strip(key) == key by { StripOfStripped(key); }
    assert ParseInt(Strip(text)) == Some(n) by {
      StripOfStripped(text);
      ParseIntOfString(n);
    }
    StoreParsed(schema, fields, key, field, text, n);
  }

  lemma ParseTextLine(schema: Schema, fields: Fields, key: string, field: Field, value: string)
    requires ':' !in key && IsStripped(key) && FieldOf(schema, key) == Some(field) && !IsNumeric(field)
    requires IsStripped(value)
    ensures ParseLine(schema, fields, key + ": " + value) == Success(fields[field := Text(value)])
  {
    ParseKeyLine(schema, fields, key, value);
    StoreText(schema, fields, key, field, value);
  }

  lemma ParseNumberLine(schema: Schema, fields: Fields, key: string, field: Field, n: int)
    requires ':' !in key && IsStripped(key) && FieldOf(schema, key) == Some(field) && IsNumeric(field)
    ensures ParseLine(schema, fields, key + ": " + IntToString(n)) == Success(fields[field := Number(n)])
  {
    ParseKeyLine(schema, fields, key, IntToString(n));
    StoreNumber(schema, fields, key, field, n);
  }

  lemma ParseRenderedLine(schema: Schema, fields: Fields, e: (Field, FieldValue))
    requires Readable(schema, e)
    ensures ParseLine(schema, fields, RenderLine(e.0, e.1)) == Success(fields[e.0 := e.1])
  {
    KeyOfField(schema, e.0);
    match e.1
    case Text(t) => ParseTextLine(schema, fields, KeyOf(e.0), e.0, t);
    case Number(n) => ParseNumberLine(schema, fields, KeyOf(e.0), e.0, n);
  }

  /** Parsing rendered lines stores exactly the rendered entries. */
  lemma {:induction false} ParseRenderedLines(schema: Schema, entries: seq<(Field, FieldValue)>, fields: Fields)
    requires forall i :: 0 <= i < |entries| ==> Readable(schema, entries[i])
    ensures ParseLines(schema, RenderLines(entries), fields) == Success(StoreAll(entries, fields))
  {
    if entries != [] {
      var lines := RenderLines(entries);
      var next := fields[entries[0].0 := entries[0].1];
      assert lines[1..] == RenderLines(entries[1..]);
      assert ParseLine(schema, fields, lines[0]) == Success(next) by {
        ParseRenderedLine(schema, fields, entries[0]);
      }
      ParseRenderedLines(schema, entries[1..], next);
    }
  }

  /** A quest's entries in the order the data file writes them. */
  function QuestEntries(q: Quest): seq<(Field, FieldValue)> {
    [ (QuestId, Text(q.questId)), (Title, Text(q.title)), (Description, Text(q.description)),
      (RewardXp, Number(q.rewardXp)), (RewardGold, Number(q.rewardGold)),
      (RequiredLevel, Number(q.requiredLevel)), (Prerequisite, Text(q.prerequisite)) ]
  }

  /** A quest written in the data-file format (as in game_data.py:130-146). */
  function QuestBlockLines(q: Quest): seq<string> {
    RenderLines(QuestEntries(q))
  }

  /** Quests whose text fields have no surrounding whitespace and whose numbers are non-negative. */
  predicate Writable(q: Quest) {
    && IsStripped(q.questId) && IsStripped(q.title) && IsStripped(q.description)
    && IsStripped(q.prerequisite)
    && q.rewardXp >= 0 && q.rewardGold >= 0 && q.requiredLevel >= 0
  }

  /** The record the quest parser builds for `q`. */
  function QuestRecord(q: Quest): Fields {
    map[QuestId := Text(q.questId), Title := Text(q.title),
      Description := Text(q.description), RewardXp := Number(q.rewardXp),
      RewardGold := Number(q.rewardGold), RequiredLevel := Number(q.requiredLevel),
      Prerequisite := Text(q.prerequisite)]
  }

  lemma QuestEntriesStored(q: Quest)
    ensures StoreAll(QuestEntries(q), map[]) == QuestRecord(q)
  {
    var es := QuestEntries(q);
    StoreAllFrom(es, 0, map[]);
    StoreAllFrom(es, 1, map[QuestId := Text(q.questId)]);
    StoreAllFrom(es, 2, map[QuestId := Text(q.questId), Title := Text(q.title)]);
    StoreAllFrom(es, 3, map[QuestId := Text(q.questId), Title := Text(q.title), Description := Text(q.description)]);
    StoreAllFrom(es, 4, map[QuestId := Text(q.questId), Title := Text(q.title), Description := Text(q.description),
      RewardXp := Number(q.rewardXp)]);
    StoreAllFrom(es, 5, map[QuestId := Text(q.questId), Title := Text(q.title), Description := Text(q.description),
      RewardXp := Number(q.rewardXp), RewardGold := Number(q.rewardGold)]);
    StoreAllFrom(es, 6, map[QuestId := Text(q.questId), Title := Text(q.title), Description := Text(q.description),
      RewardXp := Number(q.rewardXp), RewardGold := Number(q.rewardGold), RequiredLevel := Number(q.requiredLevel)]);
    assert es[7..] == [];
  }

  /** The record of a writable quest passes validation and gives the quest back. */
  lemma QuestRecordValid(q: Quest)
    requires Writable(q)
    ensures ValidateQuestData(QuestRecord(q)) == Success(q)
  {
    var fields := QuestRecord(q);
    assert QuestId in fields && Title in fields && Description in fields;
    assert RewardXp in fields && RewardGold in fields && RequiredLevel in fields && Prerequisite in fields;
    assert NonNegativeInt(fields[RewardXp]) && NonNegativeInt(fields[RewardGold]);
    assert NonNegativeInt(fields[RequiredLevel]);
  }

  /** Parsing and validating a quest's lines gives the same quest. */
  lemma QuestLinesRoundTrip(q: Quest)
    requires Writable(q)
    ensures DecodeQuestLines(QuestBlockLines(q)) == Success(q)
  {
    ParseRenderedLines(QuestBlock, QuestEntries(q), map[]);
    QuestEntriesStored(q);
    QuestRecordValid(q);
  }

  /** An item's entries in the order the data file writes them. */
  function ItemEntries(it: Item): seq<(Field, FieldValue)> {
    [ (ItemId, Text(it.itemId)), (Name, Text(it.name)), (Type, Text(it.itemType)),
      (Effect, Text(it.effect)), (Cost, Number(it.cost)), (Description, Text(it.description)) ]
  }

  /** An item written in the data-file format (as in game_data.py:155-169). */
  function ItemBlockLines(it: Item): seq<string> {
    RenderLines(ItemEntries(it))
  }

  /** Items whose text fields have no surrounding whitespace, of a known type, with a non-negative cost. */
  predicate WritableItem(it: Item) {
    && IsStripped(it.itemId) && IsStripped(it.name) && IsStripped(it.effect) && IsStripped(it.description)
    && it.itemType in ItemTypes && it.cost >= 0
  }

  /** The record the item parser builds for `it`. */
  function ItemRecord(it: Item): Fields {
    map[ItemId := Text(it.itemId), Name := Text(it.name), Type := Text(it.itemType),
      Effect := Text(it.effect), Cost := Number(it.cost), Description := Text(it.description)]
  }

  lemma ItemEntriesStored(it: Item)
    ensures StoreAll(ItemEntries(it), map[]) == ItemRecord(it)
  {
    var es := ItemEntries(it);
    StoreAllFrom(es, 0, map[]);
    StoreAllFrom(es, 1, map[ItemId := Text(it.itemId)]);
    StoreAllFrom(es, 2, map[ItemId := Text(it.itemId), Name := Text(it.name)]);
    StoreAllFrom(es, 3, map[ItemId := Text(it.itemId), Name := Text(it.name), Type := Text(it.itemType)]);
    StoreAllFrom(es, 4, map[ItemId := Text(it.itemId), Name := Text(it.name), Type := Text(it.itemType),
      Effect := Text(it.effect)]);
    StoreAllFrom(es, 5, map[ItemId := Text(it.itemId), Name := Text(it.name), Type := Text(it.itemType),
      Effect := Text(it.effect), Cost := Number(it.cost)]);
    assert es[6..] == [];
  }

  /** The record of a writable item passes validation and gives the item back. */
  lemma ItemRecordValid(it: Item)
    requires WritableItem(it)
    ensures ValidateItemData(ItemRecord(it)) == Success(it)
  {
    var fields := ItemRecord(it);
    assert ItemId in fields && Name in fields && Type in fields;
    assert Effect in fields && Cost in fields && Description in fields;
    assert fields[Type] == Text(it.itemType) && NonNegativeInt(fields[Cost]);
  }

  /** Parsing and validating an item's lines gives the same item. */
  lemma ItemLinesRoundTrip(it: Item)
    requires WritableItem(it)
    ensures DecodeItemLines(ItemBlockLines(it)) == Success(it)
  {
    assert IsStripped(it.itemType);
    ParseRenderedLines(ItemBlock, ItemEntries(it), map[]);
    ItemEntriesStored(it);
    ItemRecordValid(it);
  }

  // ----------------------------------------------------- whole blocks and files

  /** The pieces a block or file split keeps are left as they are when they are non-empty and stripped. */
  lemma {:induction false} StrippedNonEmptyClean(parts: seq<string>)
    requires forall p :: p in parts ==> p != [] && IsStripped(p)
    ensures StrippedNonEmpty(parts) == parts
  {
    if parts != [] {
      var p := parts[0];
      assert p in parts;
      assert Strip(p) == p by { StripOfStripped(p); }
      assert forall x :: x in parts[1..] ==> x in parts;
      StrippedNonEmptyClean(parts[1..]);
      assert parts == [p] + parts[1..];
    }
  }

  /** A value the files can hold on its line: non-empty, one line, no surrounding whitespace. */
  predicate Printable(v: FieldValue) {
    IsLine(AsText(v)) && IsStripped(AsText(v))
  }

  lemma RenderLineClean(field: Field, v: FieldValue)
    requires Printable(v)
    ensures IsLine(RenderLine(field, v)) && IsStripped(RenderLine(field, v))
  {
    KeyOfClean(field);
    var line := RenderLine(field, v);
    assert line[0] == KeyOf(field)[0];
    assert line[|line| - 1] == AsText(v)[|AsText(v)| - 1];
  }

  /** The lines of an entry list, joined by line breaks, split back into those lines. */
  lemma RenderedBlock(entries: seq<(Field, FieldValue)>)
    requires entries != [] && forall i :: 0 <= i < |entries| ==> Printable(entries[i].1)
    ensures var text := Join(RenderLines(entries), "\n");
      BlockLines(text) == RenderLines(entries) && text != [] && IsStripped(text) && Absent(text, "\n\n")
  {
    var lines := RenderLines(entries);
    forall i | 0 <= i < |lines| ensures IsLine(lines[i]) && IsStripped(lines[i]) {
      RenderedLineAt(entries, i);
    }
    SplitJoinLines(lines);
    StrippedNonEmptyClean(lines);
    JoinEnds(lines, "\n");
    JoinLinesNoBlank(lines);
  }

  lemma {:induction false} RenderedLineAt(entries: seq<(Field, FieldValue)>, i: int)
    requires 0 <= i < |entries| && Printable(entries[i].1)
    ensures IsLine(RenderLines(entries)[i]) && IsStripped(RenderLines(entries)[i])
  {
    if i == 0 {
      RenderLineClean(entries[0].0, entries[0].1);
    } else {
      RenderedLineAt(entries[1..], i - 1);
    }
  }

  /** A file split into blocks gives back the blocks it was joined from. */
  lemma BlocksOfJoined(texts: seq<string>)
    requires forall i :: 0 <= i < |texts| ==> texts[i] != [] && IsStripped(texts[i]) && Absent(texts[i], "\n\n")
    ensures Blocks(Join(texts, "\n\n")) == texts
  {
    if texts == [] {
      assert Split("", "\n\n") == [""];
      assert Strip("") == [];
    } else {
      SplitJoinBlocks(texts);
      StrippedNonEmptyClean(texts);
    }
  }

  /** Loading blocks that each decode gives the catalog of the decoded records, stored in order. */
  lemma {:induction false} CatalogFromDecoded<T>(blocks: seq<string>, xs: seq<T>, decode: string -> Result<T>, id: T -> string, acc: Catalog<T>)
    requires |blocks| == |xs| && forall i :: 0 <= i < |blocks| ==> decode(blocks[i]) == Success(xs[i])
    ensures CatalogFrom(blocks, decode, id, acc) == Success(InsertAll(acc, xs, id))
  {
    if blocks != [] {
      CatalogFromDecoded(blocks[1..], xs[1..], decode, id, Insert(acc, id(xs[0]), xs[0]));
    }
  }

  /** Loading a file joined from blocks that each decode stores the decoded records in order. */
  lemma LoadJoined<T>(texts: seq<string>, xs: seq<T>, decode: string -> Result<T>, id: T -> string)
    requires |texts| == |xs|
    requires forall i :: 0 <= i < |texts| ==> texts[i] != [] && IsStripped(texts[i]) && Absent(texts[i], "\n\n")
    requires forall i :: 0 <= i < |texts| ==> decode(texts[i]) == Success(xs[i])
    ensures CatalogFrom(Blocks(Join(texts, "\n\n")), decode, id, Empty()) == Success(InsertAll(Empty(), xs, id))
    ensures (forall i, j :: 0 <= i < j < |xs| ==> id(xs[i]) != id(xs[j])) ==>
      forall i :: 0 <= i < |xs| ==>
        id(xs[i]) in InsertAll(Empty(), xs, id).entries && InsertAll(Empty(), xs, id).entries[id(xs[i])] == xs[i]
  {
    BlocksOfJoined(texts);
    CatalogFromDecoded(texts, xs, decode, id, Empty());
    if forall i, j :: 0 <= i < j < |xs| ==> id(xs[i]) != id(xs[j]) {
      InsertAllFinds(Empty(), xs, id);
    }
  }

  /** Quests a file can hold: writable, with every text field non-empty and on one line. */
  predicate FileWritable(q: Quest) {
    && Writable(q)
    && IsLine(q.questId) && IsLine(q.title) && IsLine(q.description) && IsLine(q.prerequisite)
  }

  /** A quest's block as the file writes it: its lines joined by line breaks. */
  function QuestBlockText(q: Quest): string {
    Join(QuestBlockLines(q), "\n")
  }

  lemma QuestBlockClean(q: Quest)
    requires FileWritable(q)
    ensures BlockLines(QuestBlockText(q)) == QuestBlockLines(q)
    ensures QuestBlockText(q) != [] && IsStripped(QuestBlockText(q)) && Absent(QuestBlockText(q), "\n\n")
  {
    var es := QuestEntries(q);
    assert forall i :: 0 <= i < |es| ==> Printable(es[i].1);
    RenderedBlock(es);
  }

  /** Writing a quest as a block and loading that block (split, strip, parse, validate) gives the same quest. */
  lemma QuestBlockRoundTrip(q: Quest)
    requires FileWritable(q)
    ensures DecodeQuest(QuestBlockText(q)) == Success(q)
    ensures QuestBlockText(q) != [] && IsStripped(QuestBlockText(q)) && Absent(QuestBlockText(q), "\n\n")
  {
    QuestBlockClean(q);
    QuestLinesRoundTrip(q);
  }

  /** A quests file: the quests' blocks separated by blank lines. */
  function QuestFile(qs: seq<Quest>): string {
    Join(seq(|qs|, i requires 0 <= i < |qs| => QuestBlockText(qs[i])), "\n\n")
  }

  /**
    Loading a written quests file stores every quest under its id, a later
    quest replacing an earlier one with the same id; when the ids differ,
    each quest is found under its own.
   */
  lemma QuestFileRoundTrip(qs: seq<Quest>)
    requires forall i :: 0 <= i < |qs| ==> FileWritable(qs[i])
    ensures CatalogFrom(Blocks(QuestFile(qs)), DecodeQuest, QuestIdOf, Empty()) == Success(InsertAll(Empty(), qs, QuestIdOf))
    ensures (forall i, j :: 0 <= i < j < |qs| ==> qs[i].questId != qs[j].questId) ==>
      forall i :: 0 <= i < |qs| ==>
        qs[i].questId in InsertAll(Empty(), qs, QuestIdOf).entries && InsertAll(Empty(), qs, QuestIdOf).entries[qs[i].questId] == qs[i]
  {
    var texts := seq(|qs|, i requires 0 <= i < |qs| => QuestBlockText(qs[i]));
    forall i | 0 <= i < |texts|
      ensures texts[i] != [] && IsStripped(texts[i]) && Absent(texts[i], "\n\n")
      ensures DecodeQuest(texts[i]) == Success(qs[i])
    {
      QuestBlockRoundTrip(qs[i]);
    }
    LoadJoined(texts, qs, DecodeQuest, QuestIdOf);
  }


  /** Items a file can hold: writable, with every text field non-empty and on one line. */
  predicate FileWritableItem(it: Item) {
    && WritableItem(it)
    && IsLine(it.itemId) && IsLine(it.name) && IsLine(it.effect) && IsLine(it.description)
  }

  /** An item's block as the file writes it: its lines joined by line breaks. */
  function ItemBlockText(it: Item): string {
    Join(ItemBlockLines(it), "\n")
  }

  lemma ItemBlockClean(it: Item)
    requires FileWritableItem(it)
    ensures BlockLines(ItemBlockText(it)) == ItemBlockLines(it)
    ensures ItemBlockText(it) != [] && IsStripped(ItemBlockText(it)) && Absent(ItemBlockText(it), "\n\n")
  {
    var es := ItemEntries(it);
    assert IsLine(it.itemType) && IsStripped(it.itemType);
    assert forall i :: 0 <= i < |es| ==> Printable(es[i].1);
    RenderedBlock(es);
  }

  /** Writing an item as a block and loading that block (split, strip, parse, validate) gives the same item. */
  lemma ItemBlockRoundTrip(it: Item)
    requires FileWritableItem(it)
    ensures DecodeItem(ItemBlockText(it)) == Success(it)
    ensures ItemBlockText(it) != [] && IsStripped(ItemBlockText(it)) && Absent(ItemBlockText(it), "\n\n")
  {
    ItemBlockClean(it);
    ItemLinesRoundTrip(it);
  }

  /** An items file: the items' blocks separated by blank lines. */
  function ItemFile(items: seq<Item>): string {
    Join(seq(|items|, i requires 0 <= i < |items| => ItemBlockText(items[i])), "\n\n")
  }

  /**
    Loading a written items file stores every item under its id, a later
    item replacing an earlier one with the same id; when the ids differ,
    each item is found under its own.
   */
  lemma ItemFileRoundTrip(items: seq<Item>)
    requires forall i :: 0 <= i < |items| ==> FileWritableItem(items[i])
    ensures CatalogFrom(Blocks(ItemFile(items)), DecodeItem, ItemIdOf, Empty()) == Success(InsertAll(Empty(), items, ItemIdOf))
    ensures (forall i, j :: 0 <= i < j < |items| ==> items[i].itemId != items[j].itemId) ==>
      forall i :: 0 <= i < |items| ==>
        items[i].itemId in InsertAll(Empty(), items, ItemIdOf).entries && InsertAll(Empty(), items, ItemIdOf).entries[items[i].itemId] == items[i]
  {
    var texts := seq(|items|, i requires 0 <= i < |items| => ItemBlockText(items[i]));
    forall i | 0 <= i < |texts|
      ensures texts[i] != [] && IsStripped(texts[i]) && Absent(texts[i], "\n\n")
      ensures DecodeItem(texts[i]) == Success(items[i])
    {
      ItemBlockRoundTrip(items[i]);
    }
    LoadJoined(texts, items, DecodeItem, ItemIdOf);
  }

}
