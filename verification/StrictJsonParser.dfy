/** The parser object with its moving index, proved to compute the parsing functions of StrictJson. */
module StrictJsonParser {
  import opened Wrappers
  import opened JsonText
  import opened StrictJson

  class Parser {
    const source: Text
    var index: nat

    constructor (source: Text)
      ensures this.source == source && index == 0
    {
      this.source := source;
      index := 0;
    }

    method SkipWhitespace()
      requires index <= |source|
      modifies this`index
      ensures index == SkipWhite(source, old(index))
    {
      while index < |source| && White(source[index])
        invariant index <= |source|
        invariant SkipWhite(source, index) == SkipWhite(source, old(index))
      {
        index := index + 1;
      }
    }

    /** Scans to the closing quote; a backslash hides the unit behind it. */
    method ReadString() returns (r: Option<Text>)
      requires index < |source| && source[index] == QUOTE
      modifies this`index
      ensures var p := ParseString(source, old(index));
              match r
              case None => p.None?
              case Some(s) => p == Some(Parsed(s, index))
    {
      hide Unescape;
      var start := index;
      index := index + 1;
      ClosingQuoteBounds(source, index);
      while index < |source|
        invariant start < index
        invariant ClosingQuote(source, index) == ClosingQuote(source, start + 1)
        decreases |source| - index
      {
        if source[index] == BACKSLASH {
          index := index + 2;
        } else if source[index] == QUOTE {
          var raw := source[start + 1..index];
          index := index + 1;
          return Unescape(raw);
        } else {
          index := index + 1;
        }
      }
      r := None;
    }

    method ReadValue() returns (r: Option<Json>)
      requires index <= |source|
      modifies this`index
      ensures var p := ParseValue(source, old(index));
              match r
              case None => p.None?
              case Some(v) => p == Some(Parsed(v, index))
      decreases |source| - index, 1
    {
      hide ScanNumber, ParseString, White;
      SkipWhitespace();
      if index == |source| {
        return None;
      }
      if source[index] == OPEN_OBJECT {
        var members := ReadObject();
        return if members.None? then None else Some(Obj(members.value));
      }
      if source[index] == OPEN_ARRAY {
        var items := ReadArray();
        return if items.None? then None else Some(Arr(items.value));
      }
      if source[index] == QUOTE {
        var s := ReadString();
        return if s.None? then None else Some(Str(s.value));
      }
      if StartsWith(source, index, TRUE) {
        index := index + 4;
        return Some(Bool(true));
      }
      if StartsWith(source, index, FALSE) {
        index := index + 5;
        return Some(Bool(false));
      }
      if StartsWith(source, index, NULL) {
        index := index + 4;
        return Some(Null);
      }
      var n := ScanNumber(source, index);
      if n.None? {
        return None;
      }
      index := n.value.next;
      r := Some(Num(n.value.value));
    }

    method ReadArray() returns (r: Option<seq<Json>>)
      requires index < |source| && source[index] == OPEN_ARRAY
      modifies this`index
      ensures var k := SkipWhite(source, old(index) + 1);
              var p := if k < |source| && source[k] == CLOSE_ARRAY then Some(Parsed([], k + 1)) else ParseItems(source, k, []);
              match r
              case None => p.None?
              case Some(items) => p == Some(Parsed(items, index))
      decreases |source| - index, 0
    {
      hide ParseValue, White, SkipWhite;
      index := index + 1;
      ghost var entry := index;
      SkipWhitespace();
      var result: seq<Json> := [];
      if index < |source| && source[index] == CLOSE_ARRAY {
        index := index + 1;
        return Some(result);
      }
      while index < |source|
        invariant entry <= index <= |source|
        invariant ParseItems(source, index, result) == ParseItems(source, SkipWhite(source, entry), [])
        decreases |source| - index
      {
        ghost var at := index;
        var v := ReadValue();
        if v.None? {
          return None;
        }
        result := result + [v.value];
        SkipWhitespace();
        if index == |source| {
          return None;
        }
        if source[index] == CLOSE_ARRAY {
          index := index + 1;
          return Some(result);
        }
        if source[index] != COMMA {
          return None;
        }
        index := index + 1;
      }
      r := None;
    }

    /** Key, colon, value; a key already in `keys` is refused. */
    method ReadMember(ghost members: seq<Member>, keys: set<Text>) returns (r: Option<Member>)
      requires index < |source|
      requires forall key :: key in keys <==> HasKey(members, key)
      modifies this`index
      ensures var p := ParseMember(source, old(index), members);
              match r
              case None => p.None?
              case Some(m) => p == Some(Parsed(m, index))
      decreases |source| - index, 2
    {
      hide ParseValue, ParseString, White, SkipWhite, HasKey;
      SkipWhitespace();
      if index == |source| || source[index] != QUOTE {
        return None;
      }
      var key := ReadString();
      if key.None? || key.value in keys {
        return None;
      }
      SkipWhitespace();
      if index == |source| || source[index] != COLON {
        return None;
      }
      index := index + 1;
      var v := ReadValue();
      r := if v.None? then None else Some(Member(key.value, v.value));
    }

    method ReadObject() returns (r: Option<seq<Member>>)
      requires index < |source| && source[index] == OPEN_OBJECT
      modifies this`index
      ensures var k := SkipWhite(source, old(index) + 1);
              var p := if k < |source| && source[k] == CLOSE_OBJECT then Some(Parsed([], k + 1)) else ParseMembers(source, k, []);
              match r
              case None => p.None?
              case Some(members) => p == Some(Parsed(members, index))
      decreases |source| - index, 0
    {
      hide ParseMember, White, SkipWhite, HasKey;
      index := index + 1;
      ghost var entry := index;
      SkipWhitespace();
      var result: seq<Member> := [];
      var keys: set<Text> := {};
      NoKeys();
      if index < |source| && source[index] == CLOSE_OBJECT {
        index := index + 1;
        return Some(result);
      }
      while index < |source|
        invariant entry <= index <= |source|
        invariant forall key: Text :: key in keys <==> HasKey(result, key)
        invariant ParseMembers(source, index, result) == ParseMembers(source, SkipWhite(source, entry), [])
        decreases |source| - index
      {
        var m := ReadMember(result, keys);
        if m.None? {
          return None;
        }
        keys := keys + {m.value.key};
        KeysGrow(result, m.value);
        result := result + [m.value];
        SkipWhitespace();
        if index == |source| {
          return None;
        }
        if source[index] == CLOSE_OBJECT {
          index := index + 1;
          return Some(result);
        }
        if source[index] != COMMA {
          return None;
        }
        index := index + 1;
      }
      r := None;
    }

    /** The parser accepts exactly the texts the specification parses, with the same value. */
    method ParseAll() returns (r: Option<Json>)
      requires index == 0
      modifies this`index
      ensures r == Parse(source)
    {
      var v := ReadValue();
      if v.None? {
        return None;
      }
      SkipWhitespace();
      r := if index != |source| then None else v;
    }
  }

  lemma NoKeys()
    ensures forall key: Text :: !HasKey([], key)
  {
  }

  lemma KeysGrow(members: seq<Member>, m: Member)
    ensures forall key :: HasKey(members + [m], key) <==> HasKey(members, key) || key == m.key
  {
    forall key: Text
      ensures HasKey(members + [m], key) <==> HasKey(members, key) || key == m.key
    {
      var longer := members + [m];
      assert forall i :: 0 <= i < |members| ==> longer[i] == members[i];
      assert longer[|members|] == m;
    }
  }
}
