/** `@username` mentions in message text (src/services/notifications.rs).

    Strings are sequences of Unicode scalar values; how the standard library classifies and
    lower-cases them is a parameter. */
module Mentions {
  import opened Sequences

  /** The character tables of the standard library. */
  datatype Unicode = Unicode(isWhitespace: char -> bool, isAlphanumeric: char -> bool, lower: string -> string)

  predicate Separates(u: Unicode, c: char) { u.isWhitespace(c) || c == ',' }

  predicate InName(u: Unicode, c: char) { u.isAlphanumeric(c) || c == '_' || c == '-' || c == '.' }

  function Utf8Length(c: char): nat {
    if c as int < 0x80 then 1 else if c as int < 0x800 then 2 else if c as int < 0x10000 then 3 else 4
  }

  /** The length that `String::len` counts: bytes of UTF-8. */
  function ByteLength(s: string): nat {
    if s == [] then 0 else Utf8Length(s[0]) + ByteLength(s[1..])
  }

  // ---- What a text mentions, by position.

  /** An `@` that begins the text or follows a separator. */
  predicate StartsAt(u: Unicode, s: string, i: nat)
    requires i < |s|
  {
    s[i] == '@' && !Separates(u, '@') && (i == 0 || Separates(u, s[i - 1]))
  }

  /** The longest name at the beginning of a text. */
  function NameOf(u: Unicode, s: string): string {
    if s == [] || Separates(u, s[0]) || !InName(u, s[0]) then [] else [s[0]] + NameOf(u, s[1..])
  }

  predicate IsMention(u: Unicode, s: string, i: nat)
    requires i < |s|
  {
    StartsAt(u, s, i) && ByteLength(NameOf(u, s[i + 1..])) >= 3
  }

  ghost function Mentioned(u: Unicode, s: string): set<string> {
    set i | 0 <= i < |s| && IsMention(u, s, i) :: u.lower(NameOf(u, s[i + 1..]))
  }

  lemma {:induction false} NameStops(u: Unicode, a: string, c: char, b: string)
    requires Separates(u, c)
    ensures NameOf(u, a + [c] + b) == NameOf(u, a)
  {
    if a == [] {
      assert (a + [c] + b)[0] == c;
    } else {
      assert (a + [c] + b)[1..] == a[1..] + [c] + b;
      NameStops(u, a[1..], c, b);
    }
  }

  lemma MentionBefore(u: Unicode, a: string, c: char, b: string, i: nat)
    requires Separates(u, c) && i < |a|
    ensures IsMention(u, a + [c] + b, i) == IsMention(u, a, i)
    ensures NameOf(u, (a + [c] + b)[i + 1..]) == NameOf(u, a[i + 1..])
  {
    assert (a + [c] + b)[i + 1..] == a[i + 1..] + [c] + b;
    NameStops(u, a[i + 1..], c, b);
  }

  lemma MentionAfter(u: Unicode, a: string, c: char, b: string, i: nat)
    requires Separates(u, c) && i < |b|
    ensures IsMention(u, a + [c] + b, |a| + 1 + i) == IsMention(u, b, i)
    ensures NameOf(u, (a + [c] + b)[|a| + 1 + i + 1..]) == NameOf(u, b[i + 1..])
  {
    var s := a + [c] + b;
    assert s[|a| + 1 + i + 1..] == b[i + 1..];
    assert s[|a| + 1 + i] == b[i];
    assert i == 0 ==> s[|a| + i] == c;
    assert i > 0 ==> s[|a| + i] == b[i - 1];
  }

  /** A separator keeps mentions apart: what is mentioned on both sides together is what is
      mentioned on either. */
  lemma MentionedJoins(u: Unicode, a: string, c: char, b: string)
    requires Separates(u, c)
    ensures Mentioned(u, a + [c] + b) == Mentioned(u, a) + Mentioned(u, b)
  {
    hide IsMention, NameOf;
    var s := a + [c] + b;
    forall n | n in Mentioned(u, s) ensures n in Mentioned(u, a) + Mentioned(u, b) {
      var i :| 0 <= i < |s| && IsMention(u, s, i) && n == u.lower(NameOf(u, s[i + 1..]));
      if i < |a| {
        MentionBefore(u, a, c, b, i);
      } else if i > |a| {
        MentionAfter(u, a, c, b, i - |a| - 1);
      } else {
        SeparatorIsNone(u, s, i);
      }
    }
    forall n | n in Mentioned(u, a) ensures n in Mentioned(u, s) {
      var i :| 0 <= i < |a| && IsMention(u, a, i) && n == u.lower(NameOf(u, a[i + 1..]));
      MentionBefore(u, a, c, b, i);
      assert IsMention(u, s, i);
    }
    forall n | n in Mentioned(u, b) ensures n in Mentioned(u, s) {
      var i :| 0 <= i < |b| && IsMention(u, b, i) && n == u.lower(NameOf(u, b[i + 1..]));
      MentionAfter(u, a, c, b, i);
      assert IsMention(u, s, |a| + 1 + i);
    }
  }

  lemma SeparatorIsNone(u: Unicode, s: string, i: nat)
    requires i < |s| && Separates(u, s[i])
    ensures !IsMention(u, s, i)
  {
  }

  // ---- Splitting and cleaning.

  ghost predicate IsToken(u: Unicode, s: string) { forall i :: 0 <= i < |s| ==> !Separates(u, s[i]) }

  /** The parts between separators; as many as there are separators, and one more. */
  function Split(u: Unicode, s: string): (ts: seq<string>)
    ensures ts != []
  {
    if s == [] then [[]]
    else
      var ts := Split(u, s[1..]);
      if Separates(u, s[0]) then [[]] + ts else [[s[0]] + ts[0]] + ts[1..]
  }

  function TakeName(u: Unicode, s: string): string {
    if s == [] || !InName(u, s[0]) then [] else [s[0]] + TakeName(u, s[1..])
  }

  /** The name a token contributes, if any. */
  function Contribution(u: Unicode, token: string): set<string> {
    if token == [] || token[0] != '@' || ByteLength(TakeName(u, token[1..])) < 3 then {}
    else {u.lower(TakeName(u, token[1..]))}
  }

  function Contributions(u: Unicode, tokens: seq<string>): set<string> {
    if tokens == [] then {} else Contributions(u, tokens[..|tokens| - 1]) + Contribution(u, tokens[|tokens| - 1])
  }

  lemma {:induction false} TokenName(u: Unicode, s: string)
    requires IsToken(u, s)
    ensures TakeName(u, s) == NameOf(u, s)
  {
    if s == [] {
    } else {
      assert forall i :: 0 <= i < |s[1..]| ==> s[1..][i] == s[i + 1];
      TokenName(u, s[1..]);
    }
  }

  lemma TokenMentions(u: Unicode, s: string)
    requires IsToken(u, s)
    ensures Mentioned(u, s) == Contribution(u, s)
  {
    hide NameOf, TakeName, ByteLength;
    forall i | 0 < i < |s| ensures !IsMention(u, s, i) {
      assert !Separates(u, s[i - 1]);
    }
    if s != [] {
      assert forall i :: 0 <= i < |s[1..]| ==> s[1..][i] == s[i + 1];
      TokenName(u, s[1..]);
      assert s[0] == '@' ==> !Separates(u, '@');
      if IsMention(u, s, 0) { assert u.lower(NameOf(u, s[0 + 1..])) in Mentioned(u, s); }
    }
  }

  /** The length of the first part, before the first separator. */
  function FirstPart(u: Unicode, s: string): (k: nat)
    ensures k <= |s| && IsToken(u, s[..k]) && (k < |s| ==> Separates(u, s[k]))
  {
    if s == [] || Separates(u, s[0]) then 0
    else
      var k := FirstPart(u, s[1..]) + 1;
      assert forall i :: 1 <= i < k ==> s[..k][i] == s[1..][..k - 1][i - 1];
      k
  }

  lemma {:induction false} SplitStep(u: Unicode, s: string)
    ensures var k := FirstPart(u, s);
            Split(u, s) == if k == |s| then [s] else [s[..k]] + Split(u, s[k + 1..])
  {
    if s != [] && !Separates(u, s[0]) {
      var k := FirstPart(u, s);
      SplitStep(u, s[1..]);
      if k < |s| {
        assert s[1..][k..] == s[k + 1..];
        assert [s[0]] + s[1..][..k - 1] == s[..k];
      } else {
        assert [s[0]] + s[1..] == s;
      }
    }
  }

  lemma {:induction false} ContributionsFirst(u: Unicode, t: string, ts: seq<string>)
    ensures Contributions(u, [t] + ts) == Contribution(u, t) + Contributions(u, ts)
  {
    if ts == [] {
      assert ([t] + ts)[..0] == [];
    } else {
      assert ([t] + ts)[..|ts|] == [t] + ts[..|ts| - 1];
      ContributionsFirst(u, t, ts[..|ts| - 1]);
    }
  }

  /** Splitting into tokens and cleaning each finds exactly what the text mentions. */
  lemma {:induction false} SplitFindsMentions(u: Unicode, s: string)
    ensures Contributions(u, Split(u, s)) == Mentioned(u, s)
    decreases |s|
  {
    hide Split, Mentioned, Contribution, Contributions, FirstPart;
    var k := FirstPart(u, s);
    SplitStep(u, s);
    TokenMentions(u, s[..k]);
    if k == |s| {
      assert s[..k] == s;
      ContributionsFirst(u, s, []);
      NoContributions(u);
      assert [s] + [] == [s];
    } else {
      assert s == s[..k] + [s[k]] + s[k + 1..];
      SplitFindsMentions(u, s[k + 1..]);
      MentionedJoins(u, s[..k], s[k], s[k + 1..]);
      ContributionsFirst(u, s[..k], Split(u, s[k + 1..]));
    }
  }

  lemma NoContributions(u: Unicode)
    ensures Contributions(u, []) == {}
  {
  }

  // ---- Sorting.

  /** Strings in order of their code points, which is the order of their UTF-8 bytes. */
  predicate LessOrEqual(a: string, b: string) {
    a == [] || (b != [] && (a[0] < b[0] || (a[0] == b[0] && LessOrEqual(a[1..], b[1..]))))
  }

  predicate Less(a: string, b: string) { LessOrEqual(a, b) && a != b }

  lemma {:induction false} OrderIsTotal(a: string, b: string)
    ensures LessOrEqual(a, b) || LessOrEqual(b, a)
    ensures LessOrEqual(a, b) && LessOrEqual(b, a) ==> a == b
  {
    if a != [] && b != [] && a[0] == b[0] {
      OrderIsTotal(a[1..], b[1..]);
      assert a == [a[0]] + a[1..] && b == [b[0]] + b[1..];
    }
  }

  lemma {:induction false} OrderIsTransitive(a: string, b: string, c: string)
    requires LessOrEqual(a, b) && LessOrEqual(b, c)
    ensures LessOrEqual(a, c)
  {
    if a != [] && a[0] == b[0] == c[0] { OrderIsTransitive(a[1..], b[1..], c[1..]); }
  }

  ghost predicate Ascending(ns: seq<string>) {
    forall i, j :: 0 <= i < j < |ns| ==> LessOrEqual(ns[i], ns[j])
  }

  ghost predicate StrictlyAscending(ns: seq<string>) {
    forall i, j :: 0 <= i < j < |ns| ==> Less(ns[i], ns[j])
  }

  lemma LessIsTransitive(a: string, b: string, c: string)
    requires Less(a, b) && LessOrEqual(b, c)
    ensures Less(a, c)
  {
    OrderIsTransitive(a, b, c);
    OrderIsTotal(a, b);
  }

  lemma {:induction false} AscendingIsDistinct(p: seq<string>)
    requires StrictlyAscending(p)
    ensures |Elements(p)| == |p|
  {
    hide LessOrEqual;
    if p == [] {
    } else {
      var n := |p| - 1;
      AscendingIsDistinct(p[..n]);
      assert Elements(p) == Elements(p[..n]) + {p[n]};
      assert p[n] !in p[..n];
    }
  }

  /** A set of names has one strictly ascending list. */
  lemma {:induction false} AscendingIsUnique(p: seq<string>, q: seq<string>)
    requires StrictlyAscending(p) && StrictlyAscending(q) && Elements(p) == Elements(q)
    ensures p == q
  {
    hide LessOrEqual;
    AscendingIsDistinct(p);
    AscendingIsDistinct(q);
    if p == [] {
    } else {
      var n := |p| - 1;
      assert p[n] in Elements(q) && q[n] in Elements(p);
      OrderIsTotal(p[n], q[n]);
      assert p[n] == q[n];
      assert Elements(p[..n]) == Elements(p) - {p[n]};
      assert Elements(q[..n]) == Elements(q) - {q[n]};
      AscendingIsUnique(p[..n], q[..n]);
    }
  }

  /** `Vec::sort`. */
  method Sort(names: seq<string>) returns (sorted: seq<string>)
    ensures Ascending(sorted) && Elements(sorted) == Elements(names)
  {
    hide LessOrEqual;
    sorted := [];
    for n := 0 to |names|
      invariant Ascending(sorted) && Elements(sorted) == Elements(names[..n])
    {
      var k := |sorted|;
      while k > 0 && !LessOrEqual(sorted[k - 1], names[n])
        invariant 0 <= k <= |sorted|
        invariant forall i :: k <= i < |sorted| ==> LessOrEqual(names[n], sorted[i])
      {
        k := k - 1;
        OrderIsTotal(sorted[k], names[n]);
      }
      forall i | 0 <= i < k ensures LessOrEqual(sorted[i], names[n]) {
        if i < k - 1 { OrderIsTransitive(sorted[i], sorted[k - 1], names[n]); }
      }
      ghost var before := sorted;
      sorted := sorted[..k] + [names[n]] + sorted[k..];
      InsertedElements(before, k, names[n]);
      assert names[..n + 1] == names[..n] + [names[n]];
      assert Elements(names[..n + 1]) == Elements(names[..n]) + {names[n]};
    }
    assert names[..|names|] == names;
  }

  lemma InsertedElements(s: seq<string>, k: nat, x: string)
    requires k <= |s|
    ensures Elements(s[..k] + [x] + s[k..]) == Elements(s) + {x}
  {
    assert s == s[..k] + s[k..];
    assert forall y :: y in s <==> y in s[..k] || y in s[k..];
  }

  /** `Vec::dedup` drops elements equal to the one before them. */
  method Dedup(names: seq<string>) returns (out: seq<string>)
    ensures Elements(out) == Elements(names)
    ensures Ascending(names) ==> StrictlyAscending(out)
  {
    hide LessOrEqual;
    out := [];
    for n := 0 to |names|
      invariant Elements(out) == Elements(names[..n])
      invariant n > 0 ==> out != [] && out[|out| - 1] == names[n - 1]
      invariant n == 0 ==> out == []
      invariant Ascending(names) ==> StrictlyAscending(out)
    {
      assert names[..n + 1] == names[..n] + [names[n]];
      assert Elements(names[..n + 1]) == Elements(names[..n]) + {names[n]};
      if n == 0 || names[n] != names[n - 1] {
        if Ascending(names) {
          forall i | 0 <= i < |out| ensures Less(out[i], names[n]) {
            if i < |out| - 1 { LessIsTransitive(out[i], names[n - 1], names[n]); }
          }
        }
        assert Elements(out + [names[n]]) == Elements(out) + {names[n]};
        out := out + [names[n]];
      } else {
        assert names[n] in out;
      }
    }
    assert names[..|names|] == names;
  }

  /** The strictly ascending list of the names a text mentions. */
  method ExtractMentions(u: Unicode, content: string) returns (out: seq<string>)
    ensures StrictlyAscending(out) && Elements(out) == Mentioned(u, content)
  {
    hide Split, Mentioned, Ascending, StrictlyAscending;
    out := [];
    var tokens := Split(u, content);
    for i := 0 to |tokens|
      invariant Elements(out) == Contributions(u, tokens[..i])
    {
      var token := tokens[i];
      assert tokens[..i + 1][..i] == tokens[..i];
      if token != [] && token[0] == '@' {
        var cleaned := TakeName(u, token[1..]);
        if ByteLength(cleaned) >= 3 {
          assert Elements(out + [u.lower(cleaned)]) == Elements(out) + {u.lower(cleaned)};
          out := out + [u.lower(cleaned)];
        }
      }
    }
    assert tokens[..|tokens|] == tokens;
    SplitFindsMentions(u, content);
    out := Sort(out);
    out := Dedup(out);
  }

  /** So extraction is determined by what the text mentions, and on a joined text it gives the
      ascending union of what it gives on the two sides. */
  lemma ExtractionJoins(u: Unicode, a: string, c: char, b: string, p: seq<string>, q: seq<string>, r: seq<string>)
    requires Separates(u, c)
    requires StrictlyAscending(p) && Elements(p) == Mentioned(u, a)
    requires StrictlyAscending(q) && Elements(q) == Mentioned(u, b)
    requires StrictlyAscending(r) && Elements(r) == Elements(p) + Elements(q)
    ensures forall out :: StrictlyAscending(out) && Elements(out) == Mentioned(u, a + [c] + b) ==> out == r
  {
    hide Mentioned, StrictlyAscending;
    MentionedJoins(u, a, c, b);
    forall out | StrictlyAscending(out) && Elements(out) == Mentioned(u, a + [c] + b) ensures out == r {
      AscendingIsUnique(out, r);
    }
  }
}
