/** Failure-carrying values for the Python exceptions raised by the system application. */
module Wrappers {

  datatype Option<+T> = None | Some(value: T)

  /** The exceptions the modelled code raises or lets escape. */
  datatype Error =
    | CommandError(message: string)
    | InvalidParameter(message: string)
    | CommandInfo(message: string)
    | ValueError(key: string)      // a stored key that does not unpack into two names
    | ZeroDivisionError
    | KeyError(key: string)
    | TypeError                    // arithmetic on an unset (None) member
    | AttributeError               // `.keys()` on an object that has no such method

  datatype Result<+T> = Ok(value: T) | Err(error: Error)

  /** Python truthiness of an optional string: None and "" are both false. */
  predicate Truthy(s: Option<string>)
  {
    s.Some? && s.value != ""
  }
}

/** Python list operations used on the persisted key list. */
module Lists {

  /** The position of the first occurrence of `x` (Python's `list.index`). */
  function IndexOf<T(==)>(s: seq<T>, x: T): (i: nat)
    requires x in s
    ensures i < |s| && s[i] == x
    ensures forall k :: 0 <= k < i ==> s[k] != x
    decreases |s|
  {
    if s[0] == x then 0
    else
      assert x in s[1..] by { assert s == [s[0]] + s[1..]; }
      IndexOf(s[1..], x) + 1
  }

  /** Python `list.remove(x)`: drops the first occurrence of `x`; leaves the list alone when absent. */
  function RemoveFirst<T(==)>(s: seq<T>, x: T): (r: seq<T>)
    ensures x in s ==> multiset(r) == multiset(s) - multiset{x}
    ensures x !in s ==> r == s
    ensures |r| == if x in s then |s| - 1 else |s|
  {
    if |s| == 0 then s
    else
      assert s == [s[0]] + s[1..];
      if s[0] == x then s[1..] else [s[0]] + RemoveFirst(s[1..], x)
  }

  /** The copy `list.remove` drops is the first one: what precedes it stays, and what follows it moves up by one. */
  lemma {:induction false} RemoveFirstDropsFirstOccurrence<T>(s: seq<T>, x: T)
    requires x in s
    ensures var r, i := RemoveFirst(s, x), IndexOf(s, x);
      && (forall k :: 0 <= k < i ==> r[k] == s[k])
      && (forall k :: i <= k < |r| ==> r[k] == s[k + 1])
    decreases |s|
  {
    assert s == [s[0]] + s[1..];
    if s[0] != x {
      RemoveFirstDropsFirstOccurrence(s[1..], x);
    }
  }

  /**
   * One left-to-right pass that drops the first copy of every element of `pending`
   * and keeps everything else, in order.
   */
  function DropFirstCopies<T(==)>(s: seq<T>, pending: set<T>): seq<T>
    decreases |s|
  {
    if |s| == 0 then []
    else if s[0] in pending then DropFirstCopies(s[1..], pending - {s[0]})
    else [s[0]] + DropFirstCopies(s[1..], pending)
  }

  /** With nothing pending, the pass keeps the whole list. */
  lemma {:induction false} DropNothing<T>(s: seq<T>)
    ensures DropFirstCopies(s, {}) == s
    decreases |s|
  {
    if |s| > 0 {
      DropNothing(s[1..]);
      assert s == [s[0]] + s[1..];
    }
  }

  /** Removing the first copy of `x` and then passing is the pass with `x` pending too. */
  lemma {:induction false} RemoveFirstThenDrop<T>(s: seq<T>, x: T, pending: set<T>)
    requires x !in pending
    ensures DropFirstCopies(RemoveFirst(s, x), pending) == DropFirstCopies(s, pending + {x})
    decreases |s|
  {
    if |s| > 0 {
      var rest := RemoveFirst(s[1..], x);
      if s[0] == x {
        assert pending + {x} - {s[0]} == pending;
      } else if s[0] in pending {
        assert RemoveFirst(s, x) == [s[0]] + rest;
        assert ([s[0]] + rest)[1..] == rest;
        RemoveFirstThenDrop(s[1..], x, pending - {s[0]});
        assert pending - {s[0]} + {x} == pending + {x} - {s[0]};
      } else {
        assert RemoveFirst(s, x) == [s[0]] + rest;
        assert ([s[0]] + rest)[1..] == rest;
        RemoveFirstThenDrop(s[1..], x, pending);
      }
    }
  }

  /** `sub` keeps some elements of `s`, in their original relative order. */
  predicate IsSubsequence<T(==)>(sub: seq<T>, s: seq<T>)
    decreases |s|
  {
    if |sub| == 0 then true
    else if |s| == 0 then false
    else if sub[0] == s[0] then IsSubsequence(sub[1..], s[1..])
    else IsSubsequence(sub, s[1..])
  }

  lemma {:induction false} SubsequenceRefl<T>(s: seq<T>)
    ensures IsSubsequence(s, s)
    decreases |s|
  {
    if |s| > 0 {
      SubsequenceRefl(s[1..]);
    }
  }

  lemma {:induction false} RemoveFirstIsSubsequence<T>(s: seq<T>, x: T)
    ensures IsSubsequence(RemoveFirst(s, x), s)
    decreases |s|
  {
    if |s| == 0 {
    } else if s[0] == x {
      TailSubsequence(s);
    } else {
      RemoveFirstIsSubsequence(s[1..], x);
      assert RemoveFirst(s, x)[1..] == RemoveFirst(s[1..], x);
    }
  }

  /** The tail of a non-empty list is a subsequence of it. */
  lemma {:induction false} TailSubsequence<T>(s: seq<T>)
    requires |s| > 0
    ensures IsSubsequence(s[1..], s)
    decreases |s|
  {
    if |s| > 1 {
      if s[1] == s[0] {
        TailSubsequence(s[1..]);
        assert s[1..][1..] == s[2..];
      } else {
        SubsequenceRefl(s[1..]);
      }
    }
  }

  /** A subsequence of the tail is a subsequence of the whole list. */
  lemma {:induction false} SubsequenceExtend<T>(x: seq<T>, b: seq<T>)
    requires |b| > 0 && IsSubsequence(x, b[1..])
    ensures IsSubsequence(x, b)
    decreases |b|, 0
  {
    if |x| > 0 && x[0] == b[0] {
      SubsequenceDropHead(x, b[1..]);
    }
  }

  /** Dropping the head of a subsequence keeps it a subsequence. */
  lemma {:induction false} SubsequenceDropHead<T>(x: seq<T>, c: seq<T>)
    requires |x| > 0 && IsSubsequence(x, c)
    ensures IsSubsequence(x[1..], c)
    decreases |c|, 1
  {
    if x[0] == c[0] {
      SubsequenceExtend(x[1..], c);
    } else {
      SubsequenceDropHead(x, c[1..]);
      SubsequenceExtend(x[1..], c);
    }
  }

  lemma {:induction false} SubsequenceTrans<T>(a: seq<T>, b: seq<T>, c: seq<T>)
    requires IsSubsequence(a, b) && IsSubsequence(b, c)
    ensures IsSubsequence(a, c)
    decreases |c|
  {
    if |a| == 0 || |b| == 0 || |c| == 0 {
    } else if b[0] == c[0] {
      if a[0] == b[0] {
        SubsequenceTrans(a[1..], b[1..], c[1..]);
      } else {
        SubsequenceTrans(a, b[1..], c[1..]);
        SubsequenceExtend(a, c);
      }
    } else {
      SubsequenceTrans(a, b, c[1..]);
      SubsequenceExtend(a, c);
    }
  }
}

/** The host's check of string command parameters: a missing value is ruled out by typing, an empty one is refused. */
module Parameters {
  import opened Wrappers

  /** The error for a string parameter given as "": `Parameter "<name>" is invalid (specified="")`. */
  function EmptyParameter(name: string): Error
  {
    InvalidParameter("Parameter \"" + name + "\" is invalid (specified=\"\")")
  }

  /** The first parameter, in declaration order, whose value is the empty string is reported. */
  function CheckStrings(params: seq<(string, string)>): (r: Result<()>)
    ensures r.Ok? <==> forall i :: 0 <= i < |params| ==> params[i].1 != ""
    ensures r.Err? ==> exists i :: (0 <= i < |params| && params[i].1 == ""
      && (forall j :: 0 <= j < i ==> params[j].1 != "")
      && r.error == EmptyParameter(params[i].0))
    decreases |params|
  {
    if |params| == 0 then Ok(())
    else if params[0].1 == "" then Err(EmptyParameter(params[0].0))
    else
      var rest := CheckStrings(params[1..]);
      assert forall i :: 1 <= i < |params| ==> params[i] == params[1..][i - 1];
      rest
  }
}
