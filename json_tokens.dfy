/** The JSON wire format as the streaming API sees it: a sequence of tokens, written one
    at a time by a generator and read one at a time by a parser. */
module JsonTokens {
  import opened Common

  datatype Token =
    | StartObject
    | EndObject
    | StartArray
    | EndArray
    | Name(name: string)
    | Str(text: string)
    | Num(value: real)
    | Bool(truth: bool)
    | Null

  /** A JSON array of numbers and nested arrays: the lists of numbers and lists that the
      GeoJSON reader builds for a "coordinates" member. */
  datatype ArrayValue = Number(value: real) | Array(items: seq<ArrayValue>)

  /** The tokens of a value. */
  function ValueTokens(v: ArrayValue): (ts: seq<Token>)
    ensures v.Number? ==> ts == [Num(v.value)]
    ensures v.Array? ==> |ts| >= 2 && ts[0] == StartArray && ts[|ts| - 1] == EndArray
    decreases v, 1
  {
    match v
    case Number(x) => [Num(x)]
    case Array(items) => [StartArray] + ItemsTokens(items) + [EndArray]
  }

  /** The tokens of the elements of an array, one value after the other. */
  function ItemsTokens(items: seq<ArrayValue>): seq<Token>
    decreases items, 0
  {
    if items == [] then [] else ValueTokens(items[0]) + ItemsTokens(items[1..])
  }

  lemma {:induction false} ItemsTokensAppend(a: seq<ArrayValue>, b: seq<ArrayValue>)
    ensures ItemsTokens(a + b) == ItemsTokens(a) + ItemsTokens(b)
    decreases |a|
  {
    if a == [] {
      assert a + b == b;
    } else {
      assert (a + b)[1..] == a[1..] + b;
      ItemsTokensAppend(a[1..], b);
    }
  }

  /** Appending one element to an array appends its tokens. */
  lemma ItemsTokensSnoc(items: seq<ArrayValue>, v: ArrayValue)
    ensures ItemsTokens(items + [v]) == ItemsTokens(items) + ValueTokens(v)
  {
    ItemsTokensAppend(items, [v]);
    assert ItemsTokens([v]) == ValueTokens(v) + ItemsTokens([]);
  }

  /** Jackson's `JsonGenerator`: every write appends tokens to the output. */
  class JsonGenerator {
    var tokens: seq<Token>

    constructor ()
      ensures tokens == []
    {
      tokens := [];
    }

    method WriteStartObject()
      modifies this
      ensures tokens == old(tokens) + [StartObject]
    {
      tokens := tokens + [StartObject];
    }

    method WriteEndObject()
      modifies this
      ensures tokens == old(tokens) + [EndObject]
    {
      tokens := tokens + [EndObject];
    }

    method WriteStartArray()
      modifies this
      ensures tokens == old(tokens) + [StartArray]
    {
      tokens := tokens + [StartArray];
    }

    method WriteEndArray()
      modifies this
      ensures tokens == old(tokens) + [EndArray]
    {
      tokens := tokens + [EndArray];
    }

    method WriteName(name: string)
      modifies this
      ensures tokens == old(tokens) + [Name(name)]
    {
      tokens := tokens + [Name(name)];
    }

    method WriteStringProperty(name: string, text: string)
      modifies this
      ensures tokens == old(tokens) + [Name(name), Str(text)]
    {
      tokens := tokens + [Name(name), Str(text)];
    }

    method WriteNumber(x: real)
      modifies this
      ensures tokens == old(tokens) + [Num(x)]
    {
      tokens := tokens + [Num(x)];
    }

    method WriteNull()
      modifies this
      ensures tokens == old(tokens) + [Null]
    {
      tokens := tokens + [Null];
    }
  }

  /** Jackson's `JsonParser` over a fixed input: `pos` is the index of the next token. */
  class JsonParser {
    const tokens: seq<Token>
    var pos: nat

    ghost predicate Valid()
      reads this
    {
      pos <= |tokens|
    }

    /** The input not yet read. */
    function Remaining(): seq<Token>
      reads this
      requires Valid()
    {
      tokens[pos..]
    }

    constructor (input: seq<Token>)
      ensures Valid() && tokens == input && pos == 0
    {
      tokens := input;
      pos := 0;
    }

    /** `nextToken`: the next token, or nothing at the end of the input. */
    method NextToken() returns (t: Option<Token>)
      requires Valid()
      modifies this
      ensures Valid()
      ensures old(Remaining()) == [] ==> t.None? && pos == old(pos)
      ensures old(Remaining()) != [] ==> t == Some(old(Remaining())[0]) && Remaining() == old(Remaining())[1..]
    {
      if pos == |tokens| {
        return None;
      }
      t := Some(tokens[pos]);
      pos := pos + 1;
    }
  }
}
