/** What counts as a mention, spelled out character by character, and the example that the repository's
    own test gives. */
module MentionExamples {
  import opened Sequences
  import opened Mentions

  predicate IsSeparator(u: Unicode, c: char) { u.isWhitespace(c) || c == ',' }

  /** Characters of a name: letters, digits, and `_`, `-` and `.`; a separator ends the text anyhow. */
  predicate IsNameChar(u: Unicode, c: char) {
    (u.isAlphanumeric(c) || c in ['_', '-', '.']) && !u.isWhitespace(c) && c != ','
  }

  /** The name at the beginning of `s` is its first `k` characters. */
  ghost predicate HasName(u: Unicode, s: string, k: nat) {
    && k <= |s| && (forall i :: 0 <= i < k ==> IsNameChar(u, s[i]))
    && (k < |s| ==> !IsNameChar(u, s[k]))
  }

  lemma {:induction false} NameIsLongest(u: Unicode, s: string)
    ensures |NameOf(u, s)| <= |s| && NameOf(u, s) == s[..|NameOf(u, s)|] && HasName(u, s, |NameOf(u, s)|)
  {
    if s == [] || Separates(u, s[0]) || !InName(u, s[0]) {
    } else {
      var k := |NameOf(u, s[1..])|;
      NameIsLongest(u, s[1..]);
      assert s[..k + 1] == [s[0]] + s[1..][..k];
      forall i | 0 <= i < k + 1 ensures IsNameChar(u, s[i]) {
        if i > 0 { assert s[1..][i - 1] == s[i]; }
      }
    }
  }

  /** At position `i` an `@`, at the start or after a separator, is followed by a name of `k` characters,
      three bytes at least, which in lower case is `n`. */
  ghost predicate NamesAt(u: Unicode, s: string, i: nat, k: nat, n: string) {
    && i < |s| && s[i] == '@' && (i == 0 || IsSeparator(u, s[i - 1]))
    && HasName(u, s[i + 1..], k) && ByteLength(s[i + 1..][..k]) >= 3 && n == u.lower(s[i + 1..][..k])
  }

  lemma MentionedIff(u: Unicode, s: string, n: string)
    requires !IsSeparator(u, '@')
    ensures n in Mentioned(u, s) <==> exists i, k :: NamesAt(u, s, i, k, n)
  {
    hide NameOf, ByteLength, HasName;
    if n in Mentioned(u, s) {
      var i :| 0 <= i < |s| && IsMention(u, s, i) && n == u.lower(NameOf(u, s[i + 1..]));
      NameIsLongest(u, s[i + 1..]);
      assert NamesAt(u, s, i, |NameOf(u, s[i + 1..])|, n);
    }
    if i: nat, k: nat :| NamesAt(u, s, i, k, n) {
      NameIsLongest(u, s[i + 1..]);
      OneName(u, s[i + 1..], k, |NameOf(u, s[i + 1..])|);
      assert IsMention(u, s, i);
    }
  }

  lemma OneName(u: Unicode, s: string, k: nat, m: nat)
    requires HasName(u, s, k) && HasName(u, s, m)
    ensures k == m
  {
  }

  /** Bytes and characters are the same in ASCII. */
  lemma {:induction false} AsciiLength(s: string)
    requires forall i :: 0 <= i < |s| ==> s[i] as int < 0x80
    ensures ByteLength(s) == |s|
  {
    if s == [] {
    } else {
      AsciiLength(s[1..]);
    }
  }

  // ---- An example.

  /** What any table of characters says of those in the example. */
  ghost predicate KnowsAscii(u: Unicode) {
    && u.isWhitespace(' ')
    && (forall c :: 'a' <= c <= 'z' ==> u.isAlphanumeric(c) && !u.isWhitespace(c))
    && !u.isWhitespace('@') && !u.isWhitespace('_') && !u.isAlphanumeric('@')
    && u.lower("alice") == "alice" && u.lower("bob_jones") == "bob_jones"
  }

  lemma Tokens(u: Unicode)
    requires KnowsAscii(u)
    ensures IsToken(u, "hey") && IsToken(u, "@alice") && IsToken(u, "and") && IsToken(u, "@bob_jones")
    ensures IsToken(u, "") && IsToken(u, "ping") && IsToken(u, "@al")
  {
  }

  lemma {:induction false} WholeName(u: Unicode, s: string)
    requires forall i :: 0 <= i < |s| ==> InName(u, s[i])
    ensures TakeName(u, s) == s
  {
    if s == [] {
    } else {
      WholeName(u, s[1..]);
      assert [s[0]] + s[1..] == s;
    }
  }

  lemma Contributed(u: Unicode, token: string, name: string)
    requires token == "@" + name && (forall i :: 0 <= i < |name| ==> InName(u, name[i]) && name[i] as int < 0x80)
    ensures Contribution(u, token) == if |name| >= 3 then {u.lower(name)} else {}
  {
    assert token[1..] == name;
    WholeName(u, name);
    AsciiLength(name);
  }

  lemma TokensMentionNobody(u: Unicode)
    requires KnowsAscii(u)
    ensures Mentioned(u, "hey") == {} && Mentioned(u, "and") == {} && Mentioned(u, "") == {}
    ensures Mentioned(u, "ping") == {} && Mentioned(u, "@al") == {}
  {
    Tokens(u);
    TokenMentions(u, "hey");
    TokenMentions(u, "and");
    TokenMentions(u, "");
    TokenMentions(u, "ping");
    TokenMentions(u, "@al");
    hide Mentioned, TakeName;
    Contributed(u, "@al", "al");
  }

  lemma TokensMention(u: Unicode)
    requires KnowsAscii(u)
    ensures Mentioned(u, "@alice") == {"alice"} && Mentioned(u, "@bob_jones") == {"bob_jones"}
  {
    Tokens(u);
    TokenMentions(u, "@alice");
    TokenMentions(u, "@bob_jones");
    hide Mentioned, TakeName, Contribution;
    Contributed(u, "@alice", "alice");
    Contributed(u, "@bob_jones", "bob_jones");
  }

  const EXAMPLE := "hey @alice and @bob_jones, ping @al"

  lemma ExampleIs()
    ensures EXAMPLE == "hey" + [' '] + ("@alice" + [' '] + ("and" + [' '] + ("@bob_jones" + [','] +
                         ("" + [' '] + ("ping" + [' '] + "@al")))))
  {
  }

  /** "hey @alice and @bob_jones, ping @al" mentions alice and bob_jones; the last name is too short. */
  lemma ExampleMentions(u: Unicode, out: seq<string>)
    requires KnowsAscii(u)
    requires StrictlyAscending(out) && Elements(out) == Mentioned(u, EXAMPLE)
    ensures out == ["alice", "bob_jones"]
  {
    hide Mentioned, Ascending;
    ExampleIs();
    TokensMention(u);
    TokensMentionNobody(u);
    MentionedJoins(u, "ping", ' ', "@al");
    MentionedJoins(u, "", ' ', "ping" + [' '] + "@al");
    MentionedJoins(u, "@bob_jones", ',', "" + [' '] + ("ping" + [' '] + "@al"));
    MentionedJoins(u, "and", ' ', "@bob_jones" + [','] + ("" + [' '] + ("ping" + [' '] + "@al")));
    MentionedJoins(u, "@alice", ' ', "and" + [' '] + ("@bob_jones" + [','] + ("" + [' '] + ("ping" + [' '] + "@al"))));
    MentionedJoins(u, "hey", ' ', "@alice" + [' '] + ("and" + [' '] + ("@bob_jones" + [','] +
                                    ("" + [' '] + ("ping" + [' '] + "@al")))));
    assert Less("alice", "bob_jones");
    AscendingIsUnique(out, ["alice", "bob_jones"]);
  }
}
