/** String helpers the Python sources lean on: `sep.join`, `str.split`,
    the `%s` placeholders of mysql-connector statements, `str.replace('%s', '?')`
    and `str.lower()`.  Strings are `seq<char>`. */
module Text {
  import opened Wrappers

  /** Python's `sep.join(items)`. */
  function Join(sep: string, items: seq<string>): string
    decreases |items|
  {
    if |items| == 0 then ""
    else if |items| == 1 then items[0]
    else items[0] + sep + Join(sep, items[1..])
  }

  /** `s` holds an occurrence of `sep` that starts at index `j`. */
  predicate MatchAt(s: string, sep: string, j: int)
  {
    0 <= j && j + |sep| <= |s| && s[j..j + |sep|] == sep
  }

  lemma {:induction false} MatchShift(s: string, sep: string)
    requires |s| > 0
    ensures forall j :: 0 < j ==> (MatchAt(s, sep, j) <==> MatchAt(s[1..], sep, j - 1))
  {
    forall j | 0 < j
      ensures MatchAt(s, sep, j) <==> MatchAt(s[1..], sep, j - 1)
    {
      if j + |sep| <= |s| {
        assert s[1..][j - 1..j - 1 + |sep|] == s[j..j + |sep|];
      }
    }
  }

  /** Index of the leftmost occurrence of `sep` in `s`, as Python's `s.find(sep)`. */
  function Find(s: string, sep: string): (r: Option<nat>)
    requires |sep| > 0
    ensures r.Some? ==> r.value + |sep| <= |s|
    decreases |s|
  {
    if |s| < |sep| then None
    else if s[..|sep|] == sep then Some(0)
    else
      match Find(s[1..], sep)
      case None => None
      case Some(k) => Some(k + 1)
  }

  /** `Find` answers the leftmost occurrence, or none when there is none. */
  lemma {:induction false} FindMeaning(s: string, sep: string)
    requires |sep| > 0
    ensures Find(s, sep).Some? ==> MatchAt(s, sep, Find(s, sep).value)
    ensures Find(s, sep).Some? ==> forall j :: 0 <= j < Find(s, sep).value ==> !MatchAt(s, sep, j)
    ensures Find(s, sep).None? ==> forall j :: !MatchAt(s, sep, j)
    decreases |s|
  {
    if |s| >= |sep| && s[..|sep|] != sep {
      FindMeaning(s[1..], sep);
      MatchShift(s, sep);
    }
  }

  /** Python's `s.split(sep)`: the pieces between the non-overlapping
      occurrences of `sep`, found left to right. */
  function Split(s: string, sep: string): seq<string>
    requires |sep| > 0
    decreases |s|
  {
    match Find(s, sep)
    case None => [s]
    case Some(i) => [s[..i]] + Split(s[i + |sep|..], sep)
  }

  lemma {:induction false} NoMatchWithoutHead(t: string, sep: string)
    requires |sep| > 0 && sep[0] !in t
    ensures forall j :: !MatchAt(t, sep, j)
  {
    forall j | MatchAt(t, sep, j)
      ensures false
    {
    }
  }

  /** Joining items that do not contain the separator's first character and
      splitting the result again gives the items back: the separator is a
      faithful delimiter and the order of the items is kept. */
  lemma {:induction false} SplitJoin(sep: string, items: seq<string>)
    requires |sep| > 0 && |items| > 0
    requires forall i :: 0 <= i < |items| ==> sep[0] !in items[i]
    ensures Split(Join(sep, items), sep) == items
    decreases |items|
  {
    if |items| == 1 {
      NoMatchWithoutHead(items[0], sep);
      FindMeaning(items[0], sep);
    } else {
      var a := items[0];
      var rest := Join(sep, items[1..]);
      var s := Join(sep, items);
      assert s == a + sep + rest;
      forall j | 0 <= j < |a|
        ensures !MatchAt(s, sep, j)
      {
      }
      assert s[|a|..|a| + |sep|] == sep;
      assert MatchAt(s, sep, |a|);
      FindMeaning(s, sep);
      assert Find(s, sep) == Some(|a|);
      assert s[..|a|] == a;
      assert s[|a| + |sep|..] == rest;
      SplitJoin(sep, items[1..]);
      assert [a] + items[1..] == items;
    }
  }

  /** Number of `%s` placeholders in `s`, scanning left to right as
      mysql-connector's parameter substitution does. */
  function CountPlaceholders(s: string): nat
    decreases |s|
  {
    if |s| < 2 then 0
    else if s[0] == '%' && s[1] == 's' then 1 + CountPlaceholders(s[2..])
    else CountPlaceholders(s[1..])
  }

  /** `s` does not end in a `%` that could pair with a following `s`. */
  predicate NoDanglingPercent(s: string)
  {
    |s| == 0 || s[|s| - 1] != '%'
  }

  lemma {:induction false} CountConcat(a: string, b: string)
    requires NoDanglingPercent(a)
    ensures CountPlaceholders(a + b) == CountPlaceholders(a) + CountPlaceholders(b)
    decreases |a|
  {
    if |a| == 0 {
      assert a + b == b;
    } else if |a| == 1 {
      if |a + b| >= 2 {
        assert (a + b)[1..] == b;
      } else {
        assert b == [];
        assert a + b == a;
      }
    } else if a[0] == '%' && a[1] == 's' {
      assert (a + b)[2..] == a[2..] + b;
      CountConcat(a[2..], b);
    } else {
      assert (a + b)[1..] == a[1..] + b;
      CountConcat(a[1..], b);
    }
  }

  lemma {:induction false} CountWithoutPercent(s: string)
    requires '%' !in s
    ensures CountPlaceholders(s) == 0
    decreases |s|
  {
    if |s| >= 2 {
      assert s[0] in s;
      assert forall c :: c in s[1..] ==> c in s;
      CountWithoutPercent(s[1..]);
    }
  }

  /** A character found in neither the separator nor any item is not in the join. */
  lemma {:induction false} JoinAvoids(c: char, sep: string, items: seq<string>)
    requires c !in sep
    requires forall i :: 0 <= i < |items| ==> c !in items[i]
    ensures c !in Join(sep, items)
    decreases |items|
  {
    if |items| > 1 {
      JoinAvoids(c, sep, items[1..]);
    }
  }

  /** Text without `%` around a run of placeholders adds no placeholders. */
  lemma {:induction false} CountSandwich(a: string, p: string, b: string)
    requires '%' !in a && '%' !in b && NoDanglingPercent(p)
    ensures CountPlaceholders(a + p + b) == CountPlaceholders(p)
  {
    assert NoDanglingPercent(a) by {
      if |a| > 0 {
        assert a[|a| - 1] in a;
      }
    }
    CountWithoutPercent(a);
    CountWithoutPercent(b);
    CountConcat(a, p + b);
    CountConcat(p, b);
    assert a + p + b == a + (p + b);
  }

  /** Python's `', '.join(['%s'] * n)`. */
  function Placeholders(n: nat): string
  {
    Join(", ", seq(n, _ => "%s"))
  }

  /** The placeholder list holds exactly `n` placeholders and does not end in `%`. */
  lemma {:induction false} PlaceholderCount(n: nat)
    ensures CountPlaceholders(Placeholders(n)) == n
    ensures NoDanglingPercent(Placeholders(n))
    ensures '%' !in Placeholders(n) ==> n == 0
    decreases n
  {
    var items := seq(n, _ => "%s");
    if n == 0 {
    } else if n == 1 {
      assert Placeholders(1) == "%s";
      assert Placeholders(1)[0] == '%';
    } else {
      PlaceholderCount(n - 1);
      PlaceholdersCons(n);
      var rest := Placeholders(n - 1);
      CountAfterPlaceholder(rest);
      assert Placeholders(n)[0] == '%';
      assert |rest| > 0;
      assert Placeholders(n)[|Placeholders(n)| - 1] == rest[|rest| - 1];
    }
  }

  lemma {:induction false} PlaceholdersCons(n: nat)
    requires n >= 2
    ensures Placeholders(n) == "%s, " + Placeholders(n - 1)
  {
    var items := seq(n, _ => "%s");
    assert items[1..] == seq(n - 1, _ => "%s");
  }

  lemma {:induction false} CountAfterPlaceholder(rest: string)
    ensures CountPlaceholders("%s, " + rest) == 1 + CountPlaceholders(rest)
  {
    var head: string := "%s, ";
    assert CountPlaceholders(head[2..]) == 0;
    assert CountPlaceholders(head) == 1;
    CountConcat(head, rest);
  }

  /** Python's `s.replace('%s', '?')`. */
  function ReplacePlaceholders(s: string): (r: string)
    ensures |s| > 0 ==> |r| > 0 && (r[0] == 's' ==> s[0] == 's')
    ensures CountPlaceholders(r) == 0
    ensures |r| + CountPlaceholders(s) == |s|
    decreases |s|
  {
    if |s| < 2 then
      s
    else if s[0] == '%' && s[1] == 's' then
      var t := ReplacePlaceholders(s[2..]);
      assert ("?" + t)[1..] == t;
      "?" + t
    else
      var t := ReplacePlaceholders(s[1..]);
      assert ([s[0]] + t)[1..] == t;
      [s[0]] + t
  }

  /** Python defines `s.replace(old, new)` as `new.join(s.split(old))`:
      the `?` substitution is exactly that, so everything between the
      placeholders is kept, in order. */
  lemma {:induction false} ReplaceIsSplitJoin(s: string)
    ensures ReplacePlaceholders(s) == Join("?", Split(s, "%s"))
    decreases |s|
  {
    if |s| < 2 {
      assert Find(s, "%s") == None;
    } else if s[0] == '%' && s[1] == 's' {
      assert s[..2] == "%s";
      assert Find(s, "%s") == Some(0);
      ReplaceIsSplitJoin(s[2..]);
      var rest := Split(s[2..], "%s");
      assert Split(s, "%s") == [""] + rest;
      assert |rest| > 0;
      assert Join("?", [""] + rest) == "" + "?" + Join("?", rest);
    } else {
      assert s[..2] != "%s";
      ReplaceIsSplitJoin(s[1..]);
      SplitStep(s, "%s");
      JoinConsHead("?", s[0], Split(s[1..], "%s"));
    }
  }

  /** When `s` does not start with `sep`, its first piece is the first
      piece of `s[1..]` with `s[0]` in front. */
  lemma {:induction false} SplitStep(s: string, sep: string)
    requires 0 < |sep| <= |s| && s[..|sep|] != sep
    ensures |Split(s[1..], sep)| > 0
    ensures Split(s, sep) == [[s[0]] + Split(s[1..], sep)[0]] + Split(s[1..], sep)[1..]
  {
    FindStep(s, sep);
    if Find(s[1..], sep).None? {
      SplitStepNone(s, sep);
    } else {
      SplitStepSome(s, sep, Find(s[1..], sep).value);
    }
  }

  lemma {:induction false} SplitStepNone(s: string, sep: string)
    requires 0 < |sep| <= |s| && Find(s, sep).None? && Find(s[1..], sep).None?
    ensures Split(s, sep) == [[s[0]] + Split(s[1..], sep)[0]] + Split(s[1..], sep)[1..]
  {
    assert [s[0]] + s[1..] == s;
  }

  lemma {:induction false} SplitStepSome(s: string, sep: string, k: nat)
    requires 0 < |sep| <= |s| && Find(s, sep) == Some(k + 1) && Find(s[1..], sep) == Some(k)
    ensures Split(s, sep) == [[s[0]] + Split(s[1..], sep)[0]] + Split(s[1..], sep)[1..]
  {
    var t := s[1..];
    SplitAt(s, sep, k + 1);
    SplitAt(t, sep, k);
    assert t[k + |sep|..] == s[k + 1 + |sep|..];
    assert [s[0]] + t[..k] == s[..k + 1];
  }

  lemma {:induction false} FindStep(s: string, sep: string)
    requires 0 < |sep| <= |s| && s[..|sep|] != sep
    ensures Find(s, sep) == if Find(s[1..], sep).None? then None else Some(Find(s[1..], sep).value + 1)
  {
    match Find(s[1..], sep)
    case None =>
      assert Find(s, sep) == None;
    case Some(k) =>
      assert Find(s, sep) == Some(k + 1);
  }

  lemma {:induction false} SplitAt(s: string, sep: string, i: nat)
    requires |sep| > 0 && Find(s, sep) == Some(i)
    ensures i + |sep| <= |s|
    ensures Split(s, sep) == [s[..i]] + Split(s[i + |sep|..], sep)
  {
  }

  lemma {:induction false} JoinConsHead(sep: string, c: char, items: seq<string>)
    requires |items| > 0
    ensures Join(sep, [[c] + items[0]] + items[1..]) == [c] + Join(sep, items)
  {
    var t := [[c] + items[0]] + items[1..];
    assert t[1..] == items[1..];
  }

  predicate IsUpper(c: char)
  {
    'A' <= c <= 'Z'
  }

  /** ASCII lower-casing of one character. */
  function LowerChar(c: char): (r: char)
    ensures !IsUpper(r)
    ensures !IsUpper(c) ==> r == c
    ensures IsUpper(c) ==> r as int == c as int + 32
  {
    if IsUpper(c) then (c as int + 32) as char else c
  }

  /** Python's `s.lower()`, restricted to ASCII letters. */
  function Lower(s: string): (r: string)
    ensures |r| == |s|
    ensures forall i :: 0 <= i < |r| ==> !IsUpper(r[i])
    ensures forall i :: 0 <= i < |s| && !IsUpper(s[i]) ==> r[i] == s[i]
    ensures forall i :: 0 <= i < |s| && IsUpper(s[i]) ==> r[i] as int == s[i] as int + 32
  {
    seq(|s|, i requires 0 <= i < |s| => LowerChar(s[i]))
  }

  /** Lower-casing twice is lower-casing once; a string with no upper-case
      letters is its own lower-case form. */
  lemma {:induction false} LowerIdempotent(s: string)
    ensures Lower(Lower(s)) == Lower(s)
    ensures (forall i :: 0 <= i < |s| ==> !IsUpper(s[i])) ==> Lower(s) == s
  {
  }
}
