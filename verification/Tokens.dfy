/** Dot-separated subjects: `strings.Split` and `strings.Join` on ".", the legality
    of one token, and how the broker matches a filter. */
module Tokens {

  predicate DotFree(t: string) {
    '.' !in t
  }

  predicate AllDotFree(parts: seq<string>) {
    forall i :: 0 <= i < |parts| ==> DotFree(parts[i])
  }

  function Split(s: string): (parts: seq<string>)
    ensures |parts| >= 1
  {
    if s == "" then [""]
    else
      var rest := Split(s[1..]);
      if s[0] == '.' then [""] + rest else [[s[0]] + rest[0]] + rest[1..]
  }

  function Join(parts: seq<string>): string {
    if parts == [] then ""
    else if |parts| == 1 then parts[0]
    else parts[0] + "." + Join(parts[1..])
  }

  lemma {:induction false} SplitFirst(t: string, s: string)
    requires DotFree(t)
    ensures Split(t + "." + s) == [t] + Split(s)
  {
    if t == "" {
      assert (t + "." + s)[1..] == s;
    } else {
      assert (t + "." + s)[1..] == t[1..] + "." + s;
      SplitFirst(t[1..], s);
      assert [t[0]] + t[1..] == t;
    }
  }

  lemma {:induction false} SplitOne(t: string)
    requires DotFree(t)
    ensures Split(t) == [t]
  {
    if t != "" {
      SplitOne(t[1..]);
      assert [t[0]] + t[1..] == t;
    }
  }

  lemma {:induction false} SplitJoin(parts: seq<string>)
    requires parts != [] && AllDotFree(parts)
    ensures Split(Join(parts)) == parts
  {
    if |parts| == 1 {
      SplitOne(parts[0]);
      assert parts == [parts[0]];
    } else {
      SplitJoin(parts[1..]);
      SplitFirst(parts[0], Join(parts[1..]));
      assert parts == [parts[0]] + parts[1..];
    }
  }

  lemma {:induction false} SplitIsDotFree(s: string)
    ensures AllDotFree(Split(s))
  {
    if s != "" {
      SplitIsDotFree(s[1..]);
    }
  }

  lemma {:induction false} JoinConcat(a: seq<string>, b: seq<string>)
    requires a != [] && b != []
    ensures Join(a + b) == Join(a) + "." + Join(b)
  {
    if |a| == 1 {
      assert (a + b)[1..] == b;
    } else {
      assert (a + b)[1..] == a[1..] + b;
      JoinConcat(a[1..], b);
    }
  }

  /** `isLegalToken`. */
  predicate Legal(s: string) {
    s != "" && forall i :: 0 <= i < |s| ==> s[i] !in {'.', '*', '>', ' ', '\t', '\n', '\r'}
  }

  predicate AllLegal(parts: seq<string>) {
    forall i :: 0 <= i < |parts| ==> Legal(parts[i])
  }

  lemma LegalIsPlain(t: string)
    requires Legal(t)
    ensures DotFree(t) && t != "*" && t != ">"
  {
    assert t[0] != '*' && t[0] != '>';
  }

  // ---- How the broker matches ----

  /** Token by token: "*" matches one token, a last ">" matches one or more. */
  predicate Matches(filter: seq<string>, subject: seq<string>) {
    if filter == [] then subject == []
    else if filter == [">"] then subject != []
    else
      subject != [] && (filter[0] == "*" || filter[0] == subject[0]) &&
      Matches(filter[1..], subject[1..])
  }

  predicate Captures(filter: string, subject: string) {
    Matches(Split(filter), Split(subject))
  }

  /** Tokens the broker takes literally. */
  predicate Plain(parts: seq<string>) {
    forall i :: 0 <= i < |parts| ==> parts[i] != "*" && parts[i] != ">"
  }

  lemma {:induction false} MatchesPrefix(pre: seq<string>, subject: seq<string>)
    requires Plain(pre)
    ensures Matches(pre + [">"], subject) <==> pre < subject
  {
    if pre == [] {
      assert pre + [">"] == [">"];
    } else {
      assert (pre + [">"])[1..] == pre[1..] + [">"];
      if subject != [] {
        MatchesPrefix(pre[1..], subject[1..]);
        assert subject == [subject[0]] + subject[1..];
        assert pre == [pre[0]] + pre[1..];
      }
    }
  }

  lemma {:induction false} MatchesExactly(pre: seq<string>, subject: seq<string>)
    requires Plain(pre)
    ensures Matches(pre, subject) <==> pre == subject
  {
    if pre != [] && subject != [] {
      MatchesExactly(pre[1..], subject[1..]);
      assert subject == [subject[0]] + subject[1..];
      assert pre == [pre[0]] + pre[1..];
    }
  }
}
