/** Sanitizing untrusted names, and the two ways a folder's role is guessed from them. */
module Roles {
  import opened Wrappers
  import opened Store

  // ----- Sanitizing -----

  const ESC: char := 0x1b as char

  predicate IsControl(ch: char) {
    ch as int < 0x20 || 0x7f <= ch as int <= 0x9f
  }

  predicate IsLayout(ch: char) {
    ch == '\t' || ch == '\n' || ch == '\r'
  }

  /** No control character but tab and line ends. */
  predicate Harmless(s: string) {
    forall i :: 0 <= i < |s| ==> IsControl(s[i]) ==> IsLayout(s[i])
  }

  function SanitizeChar(ch: char): string {
    if IsLayout(ch) then [ch]
    else if ch == ESC then []
    else if IsControl(ch) then [' ']
    else [ch]
  }

  function Sanitize(s: string): string {
    if s == [] then [] else Sanitize(s[..|s| - 1]) + SanitizeChar(s[|s| - 1])
  }

  method SanitizeTerminalText(input: string) returns (out: string)
    ensures out == Sanitize(input)
  {
    out := [];
    for k := 0 to |input|
      invariant out == Sanitize(input[..k])
    {
      assert input[..k + 1][..k] == input[..k];
      var ch := input[k];
      if IsLayout(ch) {
        out := out + [ch];
      } else if ch == ESC {
      } else if (ch as int) < 0x20 {
        out := out + [' '];
      } else if 0x7f <= ch as int <= 0x9f {
        out := out + [' '];
      } else {
        out := out + [ch];
      }
    }
    assert input[..|input|] == input;
  }

  /** The output is harmless, and a text is left as it is exactly when it already was. */
  lemma {:induction false} SanitizeIsSafe(s: string)
    ensures Harmless(Sanitize(s)) && |Sanitize(s)| <= |s|
    ensures Sanitize(s) == s <==> Harmless(s)
  {
    if s != [] {
      var init, last := s[..|s| - 1], s[|s| - 1];
      SanitizeIsSafe(init);
      assert s == init + [last];
      if Sanitize(s) == s {
        assert |SanitizeChar(last)| == 1;
        assert Sanitize(s)[..|s| - 1] == Sanitize(init);
        assert s[..|s| - 1] == init;
      }
    }
  }

  /** What becomes of one character: an escape goes, any other control character but layout turns into a space. */
  function Shown(ch: char): Option<char> {
    if ch == 0x1b as char then None
    else if (ch as int < 0x20 || 0x7f <= ch as int <= 0x9f) && ch !in "\t\n\r" then Some(' ')
    else Some(ch)
  }

  /** Character by character, in order and none left out. */
  lemma {:induction false} SanitizeExactly(s: string) returns (at: seq<nat>)
    ensures Picks(s, Shown, Sanitize(s), at)
  {
    at := [];
    if s != [] {
      at := SanitizeExactly(s[..|s| - 1]);
      ShownIsSanitized(s[|s| - 1]);
      at := PicksLast(s, Shown, Sanitize(s[..|s| - 1]), at);
    }
  }

  lemma ShownIsSanitized(ch: char)
    ensures SanitizeChar(ch) == match Shown(ch) case Some(c) => [c] case None => []
  {
  }

  /** Sanitizing twice changes nothing more. */
  lemma SanitizeIdempotent(s: string)
    ensures Sanitize(Sanitize(s)) == Sanitize(s)
  {
    SanitizeIsSafe(s);
    SanitizeIsSafe(Sanitize(s));
  }

  // ----- Roles -----

  /** Case folding and white space are Unicode's, and are left open. */
  datatype Locale = Locale(lower: string -> string, isSpace: char -> bool)

  function TrimEnd(s: string, isSpace: char -> bool): string {
    if s == [] || !isSpace(s[|s| - 1]) then s else TrimEnd(s[..|s| - 1], isSpace)
  }

  function Normalized(name: string, l: Locale): string {
    l.lower(TrimEnd(Sanitize(name), l.isSpace))
  }

  /** What follows the last slash or dot. */
  function LastPart(s: string): string {
    if s == [] || s[|s| - 1] == '/' || s[|s| - 1] == '.' then []
    else LastPart(s[..|s| - 1]) + [s[|s| - 1]]
  }

  predicate StartsWith(s: string, prefix: string) {
    prefix <= s
  }

  predicate Contains(s: string, needle: string) {
    StartsWith(s, needle) || (s != [] && Contains(s[1..], needle))
  }

  function Join(parts: seq<string>, separator: string): string {
    if parts == [] then []
    else if |parts| == 1 then parts[0]
    else Join(parts[..|parts| - 1], separator) + separator + parts[|parts| - 1]
  }

  /** The IMAP service's chain: attributes may decide, the inbox comes last. */
  function RoleFrom(name: string, attributes: seq<string>, l: Locale): Option<FolderRole> {
    var blob := l.lower(Join(attributes, " "));
    var normalized := Normalized(name, l);
    var last := LastPart(normalized);
    if Contains(blob, "sent") || last == "sent" || StartsWith(last, "sent messages") then Some(Sent)
    else if Contains(blob, "drafts") || last == "drafts" then Some(Drafts)
    else if Contains(blob, "trash") || last == "trash" || last == "deleted messages" then Some(Trash)
    else if Contains(blob, "junk") || last == "junk" || last == "spam" then Some(Junk)
    else if Contains(blob, "archive") || last == "archive" || last == "all mail" then Some(Archive)
    else if last == "inbox" || normalized == "" then Some(Inbox)
    else None
  }

  /** The JMAP service's chain: names only, the inbox comes first. */
  function RoleFromJmap(name: string, l: Locale): Option<FolderRole> {
    var normalized := Normalized(name, l);
    var last := LastPart(normalized);
    if last == "inbox" || normalized == "" then Some(Inbox)
    else if last == "sent" || StartsWith(last, "sent messages") then Some(Sent)
    else if last == "drafts" then Some(Drafts)
    else if last == "trash" || last == "deleted messages" then Some(Trash)
    else if last == "junk" || last == "spam" then Some(Junk)
    else if last == "archive" || last == "all mail" then Some(Archive)
    else None
  }

  /** How a service gives a role to a folder, from its name and attributes. */
  type Rule = (string, seq<string>) -> Option<FolderRole>

  function ImapRule(l: Locale): Rule {
    (name: string, attributes: seq<string>) => RoleFrom(name, attributes, l)
  }

  /** The word in an attribute that stands for a role; the inbox has none. */
  function Keyword(role: FolderRole): string {
    match role
    case Sent => "sent"
    case Drafts => "drafts"
    case Trash => "trash"
    case Junk => "junk"
    case Archive => "archive"
    case Inbox => ""
  }

  /** How early the IMAP chain asks for a role; a name without one comes last. */
  function Rank(role: Option<FolderRole>): nat {
    match role
    case Some(Sent) => 0
    case Some(Drafts) => 1
    case Some(Trash) => 2
    case Some(Junk) => 3
    case Some(Archive) => 4
    case Some(Inbox) => 5
    case None => 6
  }

  /** An attribute names a role that the chain asks for before `role`. */
  ghost predicate Overruled(attributes: seq<string>, role: Option<FolderRole>, l: Locale) {
    exists r: FolderRole ::
      r != Inbox && Rank(Some(r)) < Rank(role) && Contains(l.lower(Join(attributes, " ")), Keyword(r))
  }

  /** The two chains agree on a folder exactly when no attribute overrules its name. */
  lemma RolesAgreeExactlyWhen(name: string, attributes: seq<string>, l: Locale)
    ensures RoleFrom(name, attributes, l) == RoleFromJmap(name, l) <==> !Overruled(attributes, RoleFromJmap(name, l), l)
  {
    var blob, role := l.lower(Join(attributes, " ")), RoleFromJmap(name, l);
    EarlierChoice(name, attributes, l);
    if Overruled(attributes, role, l) {
      var r: FolderRole :| r != Inbox && Rank(Some(r)) < Rank(role) && Contains(blob, Keyword(r));
      assert Rank(RoleFrom(name, attributes, l)) <= Rank(Some(r));
    }
  }

  /** The IMAP chain takes the earliest role that the attributes or the name offer. */
  lemma EarlierChoice(name: string, attributes: seq<string>, l: Locale)
    ensures var blob, role, byName := l.lower(Join(attributes, " ")), RoleFrom(name, attributes, l),
            RoleFromJmap(name, l);
            && (role == byName || (role.Some? && role.value != Inbox && Contains(blob, Keyword(role.value))))
            && Rank(role) <= Rank(byName)
            && forall r: FolderRole :: r != Inbox && Contains(blob, Keyword(r)) ==> Rank(role) <= Rank(Some(r))
  {
    var normalized := Normalized(name, l);
    var last := LastPart(normalized);
    assert normalized == "" ==> last == "";
    assert StartsWith(last, "sent messages") ==> last[0] == 's' && |last| > 6;
  }

  /** So a name alone gets the same role from both services. */
  lemma NamesAgree(name: string, l: Locale)
    requires l.lower("") == ""
    ensures RoleFrom(name, [], l) == RoleFromJmap(name, l)
  {
    RolesAgreeExactlyWhen(name, [], l);
    assert forall r: FolderRole :: r != Inbox ==> |Keyword(r)| > 0;
  }

  // ----- Roles by their names -----

  predicate IsSeparator(ch: char) {
    ch == '/' || ch == '.'
  }

  /** The last part holds no separator and is all that follows the last one. */
  lemma {:induction false} LastPartExactly(s: string) returns (k: nat)
    ensures k <= |s| && LastPart(s) == s[k..] && (k > 0 ==> IsSeparator(s[k - 1]))
    ensures forall i :: k <= i < |s| ==> !IsSeparator(s[i])
  {
    k := |s|;
    if s != [] && !IsSeparator(s[|s| - 1]) {
      var init := s[..|s| - 1];
      k := LastPartExactly(init);
      assert init[k..] + [s[|s| - 1]] == s[k..];
    }
  }

  /** Only white space is trimmed, and all of it at the end. */
  lemma {:induction false} TrimEndExactly(s: string, isSpace: char -> bool) returns (k: nat)
    ensures k <= |s| && TrimEnd(s, isSpace) == s[..k] && (k > 0 ==> !isSpace(s[k - 1]))
    ensures forall i :: k <= i < |s| ==> isSpace(s[i])
  {
    k := |s|;
    if s != [] && isSpace(s[|s| - 1]) {
      k := TrimEndExactly(s[..|s| - 1], isSpace);
    }
  }

  predicate OccursAt(s: string, word: string, i: nat) {
    i + |word| <= |s| && s[i..i + |word|] == word
  }

  /** The word stands somewhere in the text. */
  ghost predicate Occurs(s: string, word: string) {
    exists i: nat :: OccursAt(s, word, i)
  }

  lemma {:induction false} ContainsExactly(s: string, word: string)
    ensures Contains(s, word) <==> Occurs(s, word)
  {
    if StartsWith(s, word) {
      assert OccursAt(s, word, 0);
    } else if s != [] {
      ContainsExactly(s[1..], word);
      forall i: nat
        ensures OccursAt(s, word, i + 1) <==> OccursAt(s[1..], word, i)
      {
        assert i + |word| < |s| ==> s[i + 1..i + 1 + |word|] == s[1..][i..i + |word|];
      }
      if i: nat :| OccursAt(s, word, i) {
        assert i > 0 && OccursAt(s[1..], word, i - 1);
      }
      if i: nat :| OccursAt(s[1..], word, i) {
        assert OccursAt(s, word, i + 1);
      }
    } else {
      assert forall i: nat :: !OccursAt(s, word, i);
    }
  }

  /** Every attribute stands somewhere in the joined text. */
  lemma {:induction false} JoinHolds(parts: seq<string>, separator: string, i: nat)
    requires i < |parts|
    ensures Occurs(Join(parts, separator), parts[i])
  {
    var n, joined := |parts| - 1, Join(parts, separator);
    if n == 0 {
      assert OccursAt(joined, parts[0], 0);
    } else {
      var front := Join(parts[..n], separator);
      if i < n {
        JoinHolds(parts[..n], separator, i);
        var k: nat :| OccursAt(front, parts[i], k);
        assert front <= joined;
        assert joined[k..k + |parts[i]|] == front[k..k + |parts[i]|];
        assert OccursAt(joined, parts[i], k);
      } else {
        assert OccursAt(joined, parts[n], |front + separator|);
      }
    }
  }

  /** The names that stand for a role, as the last part of a folder's name. */
  function NamesOf(role: FolderRole): set<string> {
    match role
    case Sent => {"sent"}
    case Drafts => {"drafts"}
    case Trash => {"trash", "deleted messages"}
    case Junk => {"junk", "spam"}
    case Archive => {"archive", "all mail"}
    case Inbox => {"inbox"}
  }

  /** The name alone stands for the role; so does anything that starts with "sent messages", and no name at all. */
  predicate NamedFor(role: FolderRole, name: string, l: Locale) {
    var normalized := l.lower(TrimEnd(Sanitize(name), l.isSpace));
    var last := LastPart(normalized);
    || last in NamesOf(role)
    || (role == Sent && "sent messages" <= last)
    || (role == Inbox && normalized == "")
  }

  /** The JMAP chain gives a role exactly to the names that stand for it. */
  lemma JmapRoleExactly(name: string, l: Locale, role: FolderRole)
    ensures RoleFromJmap(name, l) == Some(role) <==> NamedFor(role, name, l)
  {
    var last := LastPart(Normalized(name, l));
    assert "sent messages" <= last ==> last[0] == 's' && |last| > 6 && last[1] == 'e';
    assert Normalized(name, l) == "" ==> last == "";
  }

  /** An attribute or the name stands for the role; the inbox goes by its name only. */
  ghost predicate StandsFor(role: FolderRole, name: string, attributes: seq<string>, l: Locale) {
    || (role != Inbox && Occurs(l.lower(Join(attributes, " ")), Keyword(role)))
    || NamedFor(role, name, l)
  }

  /** The IMAP chain gives the first role, in its order, that an attribute or the name stands for. */
  lemma ImapRoleExactly(name: string, attributes: seq<string>, l: Locale, role: FolderRole)
    ensures RoleFrom(name, attributes, l) == Some(role) <==>
              && StandsFor(role, name, attributes, l)
              && forall r: FolderRole :: Rank(Some(r)) < Rank(Some(role)) ==> !StandsFor(r, name, attributes, l)
  {
    var blob := l.lower(Join(attributes, " "));
    EarlierChoice(name, attributes, l);
    forall r: FolderRole
      ensures Contains(blob, Keyword(r)) <==> Occurs(blob, Keyword(r))
      ensures RoleFromJmap(name, l) == Some(r) <==> NamedFor(r, name, l)
    {
      ContainsExactly(blob, Keyword(r));
      JmapRoleExactly(name, l, r);
    }
  }
}
