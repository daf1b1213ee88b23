/**
 * Keys of the not-renderable event list. Each persisted key is the renderer name,
 * the separator "__" and the event name; reading the list back splits each key on
 * the separator the way Python's `str.split` does and unpacks exactly two parts.
 */
module RenderKeys {
  import opened Wrappers

  /** The separator between renderer and event names (EVENT_SEPARATOR). */
  const Separator: string := "__"

  /** One not-renderable pair, as returned to callers: {renderer, event}. */
  datatype Entry = Entry(renderer: string, event: string)

  function EncodeKey(renderer: string, event: string): string
  {
    renderer + Separator + event
  }

  predicate SeparatorAt(s: string, i: int)
  {
    0 <= i && i + 1 < |s| && s[i] == '_' && s[i + 1] == '_'
  }

  predicate HasSeparator(s: string)
  {
    exists i :: 0 <= i < |s| && SeparatorAt(s, i)
  }

  predicate EndsWithUnderscore(s: string)
  {
    |s| > 0 && s[|s| - 1] == '_'
  }

  /**
   * Python's `s.split("__")`: scanning left to right, every separator that does not
   * overlap an earlier one cuts the string.
   */
  function Split(s: string): (parts: seq<string>)
    ensures |parts| >= 1
    decreases |s|
  {
    if |s| < 2 then [s]
    else if s[0] == '_' && s[1] == '_' then [""] + Split(s[2..])
    else
      var rest := Split(s[1..]);
      [[s[0]] + rest[0]] + rest[1..]
  }

  /** Python's `"__".join(parts)`. */
  function Join(parts: seq<string>): string
    requires |parts| >= 1
  {
    if |parts| == 1 then parts[0] else parts[0] + Separator + Join(parts[1..])
  }

  /** Splitting loses nothing: joining the parts gives the key back. */
  lemma {:induction false} JoinSplit(s: string)
    ensures Join(Split(s)) == s
    decreases |s|
  {
    if |s| < 2 {
    } else if s[0] == '_' && s[1] == '_' {
      JoinSplit(s[2..]);
      assert s == "" + Separator + s[2..];
    } else {
      var rest := Split(s[1..]);
      JoinSplit(s[1..]);
      assert rest == [rest[0]] + rest[1..];
      JoinPrepend(s[0], rest[0], rest[1..]);
      assert s == [s[0]] + s[1..];
    }
  }

  /** A character put before the first part comes first in the joined string. */
  lemma JoinPrepend(c: char, first: string, more: seq<string>)
    ensures Join([[c] + first] + more) == [c] + Join([first] + more)
  {
    var longer, parts := [[c] + first] + more, [first] + more;
    assert longer[0] == [c] + first && parts[0] == first;
    if |more| > 0 {
      assert longer[1..] == more && parts[1..] == more;
      var tail := Separator + Join(more);
      assert ([c] + first) + tail == [c] + (first + tail);
    }
  }

  /** The first part of a split is a prefix of the string. */
  lemma {:induction false} FirstPartIsPrefix(s: string)
    ensures |Split(s)[0]| <= |s| && Split(s)[0] == s[..|Split(s)[0]|]
    decreases |s|
  {
    if |s| >= 2 && !(s[0] == '_' && s[1] == '_') {
      FirstPartIsPrefix(s[1..]);
    }
  }

  /** No part of a split contains the separator. */
  lemma {:induction false} PartsHaveNoSeparator(s: string)
    ensures forall k :: 0 <= k < |Split(s)| ==> !HasSeparator(Split(s)[k])
    decreases |s|
  {
    if |s| < 2 {
    } else if s[0] == '_' && s[1] == '_' {
      PartsHaveNoSeparator(s[2..]);
      assert !HasSeparator("");
    } else {
      var rest := Split(s[1..]);
      PartsHaveNoSeparator(s[1..]);
      FirstPartIsPrefix(s[1..]);
      var head := [s[0]] + rest[0];
      forall i | 0 <= i < |head|
        ensures !SeparatorAt(head, i)
      {
        if i > 0 && i + 1 < |head| {
          assert head[i] == rest[0][i - 1] && head[i + 1] == rest[0][i];
          assert !SeparatorAt(rest[0], i - 1);
        }
      }
      forall k | 0 <= k < |Split(s)|
        ensures !HasSeparator(Split(s)[k])
      {
        if k > 0 {
          assert Split(s)[k] == rest[k];
        }
      }
    }
  }

  /** A split into several parts whose first part is empty starts with the separator. */
  lemma EmptyFirstPart(s: string)
    requires |Split(s)| >= 2 && Split(s)[0] == ""
    ensures SeparatorAt(s, 0)
  {
  }

  /** The first part of a split with two or more parts does not end with '_' (otherwise the cut would come one place earlier). */
  lemma {:induction false} FirstPartNoTrailingUnderscore(s: string)
    requires |Split(s)| >= 2
    ensures !EndsWithUnderscore(Split(s)[0])
    decreases |s|
  {
    if |s| >= 2 && !(s[0] == '_' && s[1] == '_') {
      var rest := Split(s[1..]);
      if rest[0] == "" {
        EmptyFirstPart(s[1..]);
      } else {
        FirstPartNoTrailingUnderscore(s[1..]);
      }
    }
  }

  /** A string with no separator splits into itself. */
  lemma {:induction false} SplitWithoutSeparator(s: string)
    requires !HasSeparator(s)
    ensures Split(s) == [s]
    decreases |s|
  {
    if |s| >= 2 {
      assert !SeparatorAt(s, 0);
      forall i | 0 <= i < |s[1..]|
        ensures !SeparatorAt(s[1..], i)
      {
        assert !SeparatorAt(s, i + 1);
      }
      SplitWithoutSeparator(s[1..]);
      assert s == [s[0]] + s[1..];
    }
  }

  /** A renderer name free of the separator and of a trailing '_' is cut off exactly. */
  lemma {:induction false} SplitAfterName(r: string, e: string)
    requires !HasSeparator(r) && !EndsWithUnderscore(r)
    ensures Split(r + Separator + e) == [r] + Split(e)
    decreases |r|
  {
    var s := r + Separator + e;
    if |r| == 0 {
      assert s[2..] == e;
    } else {
      assert !SeparatorAt(r, 0);
      assert !(s[0] == '_' && s[1] == '_');
      var r' := r[1..];
      forall i | 0 <= i < |r'|
        ensures !SeparatorAt(r', i)
      {
        assert !SeparatorAt(r, i + 1);
      }
      SplitAfterName(r', e);
      assert s[1..] == r' + Separator + e;
      assert [s[0]] + r' == r;
    }
  }

  /**
   * Reading back an encoded key gives the two names exactly when neither contains
   * the separator and the renderer does not end with '_'.
   */
  lemma SplitEncodedKey(r: string, e: string)
    ensures Split(EncodeKey(r, e)) == [r, e]
        <==> !HasSeparator(r) && !HasSeparator(e) && !EndsWithUnderscore(r)
  {
    var key := EncodeKey(r, e);
    if !HasSeparator(r) && !HasSeparator(e) && !EndsWithUnderscore(r) {
      SplitAfterName(r, e);
      SplitWithoutSeparator(e);
    }
    if Split(key) == [r, e] {
      PartsHaveNoSeparator(key);
      FirstPartNoTrailingUnderscore(key);
      assert !HasSeparator(Split(key)[0]) && !HasSeparator(Split(key)[1]);
    }
  }

  /** One stored key unpacked as `(renderer, event) = item.split("__")`. */
  function ParseKey(key: string): (r: Result<Entry>)
    ensures r.Ok? <==> |Split(key)| == 2
    ensures r.Ok? ==> EncodeKey(r.value.renderer, r.value.event) == key
    ensures r.Ok? ==> !HasSeparator(r.value.renderer) && !HasSeparator(r.value.event)
    ensures r.Ok? ==> !EndsWithUnderscore(r.value.renderer)
    ensures r.Err? ==> r.error == ValueError(key)
  {
    var parts := Split(key);
    JoinSplit(key);
    PartsHaveNoSeparator(key);
    if |parts| == 2 then
      FirstPartNoTrailingUnderscore(key);
      Ok(Entry(parts[0], parts[1]))
    else Err(ValueError(key))
  }

  /**
   * A renderer name ending in '_' does not survive the round trip: the pair ("a_", "b")
   * is stored as "a___b", which unpacks as ("a", "_b").
   */
  lemma TrailingUnderscoreMovesToEvent()
    ensures EncodeKey("a_", "b") == "a___b"
    ensures ParseKey("a___b") == Ok(Entry("a", "_b"))
  {
    assert "a___b" == EncodeKey("a", "_b");
    assert !SeparatorAt("_b", 0) && !SeparatorAt("_b", 1);
    ParseEncodedKey("a", "_b");
  }

  /** Parse after encode is the identity on names that satisfy the key's restriction. */
  lemma ParseEncodedKey(r: string, e: string)
    requires !HasSeparator(r) && !HasSeparator(e) && !EndsWithUnderscore(r)
    ensures ParseKey(EncodeKey(r, e)) == Ok(Entry(r, e))
  {
    SplitEncodedKey(r, e);
  }

  /** `get_not_renderable_events`: every stored key in order, or the error of the first bad key. */
  function ParseKeys(keys: seq<string>): (r: Result<seq<Entry>>)
    ensures r.Ok? <==> forall i :: 0 <= i < |keys| ==> ParseKey(keys[i]).Ok?
    ensures r.Ok? ==> |r.value| == |keys|
    ensures r.Ok? ==> forall i :: 0 <= i < |keys| ==> r.value[i] == ParseKey(keys[i]).value
    ensures r.Ok? ==> forall i :: 0 <= i < |keys| ==> EncodeKey(r.value[i].renderer, r.value[i].event) == keys[i]
    ensures r.Err? ==> exists i :: 0 <= i < |keys| && r.error == ValueError(keys[i])
    decreases |keys|
  {
    if |keys| == 0 then Ok([])
    else
      match ParseKey(keys[0])
      case Err(err) => Err(err)
      case Ok(entry) =>
        match ParseKeys(keys[1..])
        case Err(err) => Err(err)
        case Ok(rest) => Ok([entry] + rest)
  }

  /** Parsing a list extended by one key parses the list and then that key. */
  lemma {:induction false} ParseKeysAppend(keys: seq<string>, key: string)
    requires ParseKeys(keys).Ok? && ParseKey(key).Ok?
    ensures ParseKeys(keys + [key]) == Ok(ParseKeys(keys).value + [ParseKey(key).value])
    decreases |keys|
  {
    if |keys| == 0 {
      assert keys == [] && keys + [key] == [key];
      assert ParseKeys(keys) == Ok([]);
      assert [key][1..] == [];
      assert ParseKeys([key]) == Ok([ParseKey(key).value] + []);
      assert [ParseKey(key).value] + [] == ParseKeys(keys).value + [ParseKey(key).value];
    } else {
      var entry := ParseKey(keys[0]).value;
      var rest := ParseKeys(keys[1..]).value;
      assert ParseKeys(keys).value == [entry] + rest;
      assert (keys + [key])[0] == keys[0];
      assert (keys + [key])[1..] == keys[1..] + [key];
      ParseKeysAppend(keys[1..], key);
      assert ParseKeys(keys + [key]) == Ok([entry] + (rest + [ParseKey(key).value]));
      assert [entry] + (rest + [ParseKey(key).value]) == [entry] + rest + [ParseKey(key).value];
    }
  }

  /** The first key that does not read back decides the error of the whole list. */
  lemma {:induction false} ParseKeysFirstError(keys: seq<string>, i: int)
    requires 0 <= i < |keys| && ParseKey(keys[i]).Err?
    requires forall j :: 0 <= j < i ==> ParseKey(keys[j]).Ok?
    ensures ParseKeys(keys) == Err(ParseKey(keys[i]).error)
    decreases i
  {
    if i > 0 {
      assert forall j :: 0 <= j < i - 1 ==> keys[1..][j] == keys[j + 1];
      ParseKeysFirstError(keys[1..], i - 1);
    }
  }
}
