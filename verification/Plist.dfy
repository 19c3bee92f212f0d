/**
  The plist scanner: it finds values by substring search, without parsing. Texts are byte
  strings. Trimming is a parameter.
 */
module Plist {
  import opened Wrappers

  predicate MatchAt(s: string, t: string, i: int) {
    0 <= i && i + |t| <= |s| && s[i..i + |t|] == t
  }

  /** The search for the first occurrence, from position i on; -1 if there is none. */
  function IndexFrom(s: string, t: string, i: nat): int
    decreases |s| - i
  {
    if i + |t| > |s| then -1
    else if s[i..i + |t|] == t then i
    else if i == |s| then -1
    else IndexFrom(s, t, i + 1)
  }

  function Index(s: string, t: string): int {
    IndexFrom(s, t, 0)
  }

  lemma {:induction false} IndexFromMeaning(s: string, t: string, i: nat)
    ensures var r := IndexFrom(s, t, i);
            && (r == -1 ==> forall j :: i <= j ==> !MatchAt(s, t, j))
            && (r != -1 ==> i <= r && MatchAt(s, t, r) && forall j :: i <= j < r ==> !MatchAt(s, t, j))
    decreases |s| - i
  {
    if i + |t| <= |s| && s[i..i + |t|] != t && i < |s| {
      IndexFromMeaning(s, t, i + 1);
    }
  }

  /** The search returns the first occurrence, and -1 exactly when there is none. */
  lemma IndexMeaning(s: string, t: string)
    ensures var r := Index(s, t);
            && r >= -1
            && (r == -1 <==> forall j :: 0 <= j ==> !MatchAt(s, t, j))
            && (r != -1 ==> MatchAt(s, t, r) && forall j :: 0 <= j < r ==> !MatchAt(s, t, j))
  {
    IndexFromMeaning(s, t, 0);
  }

  const KEY := "<key>"
  const END_KEY := "</key>"
  const STRING := "<string>"
  const END_STRING := "</string>"

  function KeyTag(key: string): string {
    KEY + key + END_KEY
  }

  lemma MatchedChar(s: string, t: string, i: int, k: nat)
    requires MatchAt(s, t, i) && k < |t|
    ensures s[i + k] == t[k]
  {
    assert s[i + k] == s[i..i + |t|][k];
  }

  /** In every text, an opening and a later closing tag leave a valid slice between them. */
  lemma TagsDoNotOverlap(s: string, open: int, close: int)
    requires MatchAt(s, STRING, open) && MatchAt(s, END_STRING, close) && open < close
    ensures open + |STRING| <= close < |s|
  {
    MatchedChar(s, END_STRING, close, 0);
    if close < open + |STRING| {
      MatchedChar(s, STRING, open, close - open);
    }
  }

  /** The text between the first opening tag and the first closing tag, if they come in this order. */
  function ValueIn(s: string): Option<string> {
    var open, close := Index(s, STRING), Index(s, END_STRING);
    if open != -1 && close != -1 && close > open then
      IndexMeaning(s, STRING);
      IndexMeaning(s, END_STRING);
      TagsDoNotOverlap(s, open, close);
      Some(s[open + |STRING|..close])
    else None
  }

  /** The scanner. That it has no precondition says that its slices are valid on every input. */
  function ExtractPlistKey(content: string, key: string, trim: string -> string): string {
    var keyTag := KeyTag(key);
    var idx := Index(content, keyTag);
    if idx == -1 then ""
    else
      IndexMeaning(content, keyTag);
      match ValueIn(content[idx + |keyTag|..])
      case None => ""
      case Some(text) => trim(text)
  }

  // ----- printed dictionaries -----

  /** A key with a string value, or with any other value, and the white space or comments around. */
  datatype Entry =
    | TextEntry(key: string, before: string, text: string, after: string)
    | OtherEntry(key: string, body: string)

  function PrintValue(e: Entry): string {
    match e
    case TextEntry(_, before, text, after) => before + (STRING + (text + (END_STRING + after)))
    case OtherEntry(_, body) => body
  }

  function Print(entries: seq<Entry>, footer: string): string {
    if entries == [] then footer
    else KeyTag(entries[0].key) + (PrintValue(entries[0]) + Print(entries[1..], footer))
  }

  predicate Has(s: string, t: string) {
    Index(s, t) != -1
  }

  /** None of the tags the scanner looks for occurs. */
  predicate Calm(s: string) {
    !Has(s, KEY) && !Has(s, STRING) && !Has(s, END_STRING)
  }

  /** Nothing more, or a tag. */
  predicate AtTag(s: string) {
    s == "" || s[0] == '<'
  }

  predicate WellFormedEntry(e: Entry) {
    && '<' !in e.key
    && match e
       case TextEntry(_, before, text, after) => Calm(before) && Calm(text) && Calm(after)
       case OtherEntry(_, body) => Calm(body)
  }

  ghost predicate WellFormed(entries: seq<Entry>, footer: string) {
    && (forall i :: 0 <= i < |entries| ==> WellFormedEntry(entries[i]))
    && (forall i, j :: 0 <= i < j < |entries| ==> entries[i].key != entries[j].key)
    && Calm(footer) && AtTag(footer)
  }

  function FirstText(entries: seq<Entry>): Option<string> {
    if entries == [] then None
    else if entries[0].TextEntry? then Some(entries[0].text)
    else FirstText(entries[1..])
  }

  // ----- searching in concatenations -----

  lemma Regroup(a: string, b: string, c: string)
    ensures a + (b + c) == (a + b) + c
  {
  }

  lemma DropBlock(a: string, b: string, n: nat)
    requires n <= |b|
    ensures (a + b)[|a| + n..] == b[n..]
  {
  }

  lemma Uncons(s: string, rest: string)
    requires s != ""
    ensures s + rest == [s[0]] + (s[1..] + rest)
  {
  }

  function Shift(offset: nat, r: int): int {
    if r == -1 then -1 else offset + r
  }

  lemma MatchInSuffix(a: string, b: string, t: string, i: int)
    requires |a| <= i
    ensures MatchAt(a + b, t, i) <==> MatchAt(b, t, i - |a|)
  {
    if i + |t| <= |a + b| {
      assert (a + b)[i..i + |t|] == b[i - |a|..i - |a| + |t|];
    }
  }

  lemma MatchInPrefix(a: string, b: string, t: string, i: int)
    requires MatchAt(a + b, t, i) && i + |t| <= |a|
    ensures MatchAt(a, t, i)
  {
    assert a[i..i + |t|] == (a + b)[i..i + |t|];
  }

  lemma MatchHere(t: string, rest: string)
    requires t != ""
    ensures Index(t + rest, t) == 0
  {
    assert MatchAt(t + rest, t, 0);
    IndexMeaning(t + rest, t);
  }

  /** If nothing matches inside the block, the search goes on behind it. */
  lemma SearchSkips(block: string, rest: string, t: string)
    requires forall i :: 0 <= i < |block| ==> !MatchAt(block + rest, t, i)
    ensures Index(block + rest, t) == Shift(|block|, Index(rest, t))
  {
    var r, whole := Index(rest, t), Index(block + rest, t);
    IndexMeaning(rest, t);
    IndexMeaning(block + rest, t);
    if r != -1 {
      MatchInSuffix(block, rest, t, |block| + r);
    }
    if whole != -1 {
      MatchInSuffix(block, rest, t, whole);
    }
  }

  /** A tag: it starts with '<' and contains no other. */
  predicate IsTag(u: string) {
    |u| > 1 && u[0] == '<' && forall i :: 1 <= i < |u| ==> u[i] != '<'
  }

  lemma NoMatchWithout(s: string, t: string, i: nat, k: nat)
    requires k < |t| && i + k < |s| && s[i + k] != t[k]
    ensures !MatchAt(s, t, i)
  {
    if MatchAt(s, t, i) {
      MatchedChar(s, t, i, k);
    }
  }

  lemma MatchOfPrefix(s: string, t: string, u: string, i: int)
    requires MatchAt(s, t, i) && u <= t
    ensures MatchAt(s, u, i)
  {
    assert s[i..i + |u|] == s[i..i + |t|][..|u|];
  }

  /** A text without a tag, followed by a text that starts with '<', has no match of anything that
      begins with the tag: not even one that straddles the border. */
  lemma NoMatchInBlock(block: string, rest: string, u: string, t: string, i: nat)
    requires IsTag(u) && u <= t && !Has(block, u) && AtTag(rest) && i < |block|
    ensures !MatchAt(block + rest, t, i)
  {
    if MatchAt(block + rest, t, i) {
      MatchOfPrefix(block + rest, t, u, i);
      if i + |u| <= |block| {
        IndexMeaning(block, u);
        MatchInPrefix(block, rest, u, i);
      } else {
        NoMatchWithout(block + rest, u, i, |block| - i);
      }
    }
  }

  lemma SkipBlock(block: string, rest: string, u: string, t: string)
    requires IsTag(u) && u <= t && !Has(block, u) && AtTag(rest)
    ensures Index(block + rest, t) == Shift(|block|, Index(rest, t))
  {
    forall i | 0 <= i < |block| ensures !MatchAt(block + rest, t, i) {
      NoMatchInBlock(block, rest, u, t, i);
    }
    SearchSkips(block, rest, t);
  }

  /** The two value tags do not match inside a key tag. */
  lemma SkipKeyTag(key: string, rest: string, u: string)
    requires '<' !in key && (u == STRING || u == END_STRING)
    ensures Index(KeyTag(key) + rest, u) == Shift(|KeyTag(key)|, Index(rest, u))
  {
    var s := KeyTag(key) + rest;
    var n := |KEY| + |key|;
    forall i | 0 <= i < |KeyTag(key)| ensures !MatchAt(s, u, i) {
      if i == 0 || i == n {
        var k := if i == n && u == END_STRING then 2 else 1;
        NoMatchWithout(s, u, i, k);
      } else {
        assert s[i] != '<' by {
          if |KEY| <= i < n { assert s[i] == key[i - |KEY|]; }
        }
        NoMatchWithout(s, u, i, 0);
      }
    }
    SearchSkips(KeyTag(key), rest, u);
  }

  /** A key tag matches at the start of an entry only if it is the tag of this entry's key. */
  lemma KeyTagMatchesOwnKey(key: string, other: string, rest: string)
    requires '<' !in key && '<' !in other && key != other
    ensures !MatchAt(KeyTag(other) + rest, KeyTag(key), 0)
  {
    var s, t := KeyTag(other) + rest, KeyTag(key);
    var n := if |key| <= |other| then |key| else |other|;
    if |key| == |other| {
      var i :| 0 <= i < n && key[i] != other[i];
      NoMatchWithout(s, t, 0, |KEY| + i);
    } else {
      NoMatchWithout(s, t, 0, |KEY| + n);
    }
  }

  // ----- the value behind a key -----

  lemma SliceBehind(block: string, rest: string, a: nat, b: nat)
    requires a <= b <= |rest|
    ensures (block + rest)[|block| + a..|block| + b] == rest[a..b]
  {
  }

  lemma ValueBehindBlock(block: string, rest: string)
    requires Index(block + rest, STRING) == Shift(|block|, Index(rest, STRING))
    requires Index(block + rest, END_STRING) == Shift(|block|, Index(rest, END_STRING))
    ensures ValueIn(block + rest) == ValueIn(rest)
  {
    hide MatchAt, Index;
    var open, close := Index(rest, STRING), Index(rest, END_STRING);
    if open != -1 && close != -1 && close > open {
      IndexMeaning(rest, STRING);
      IndexMeaning(rest, END_STRING);
      TagsDoNotOverlap(rest, open, close);
      SliceBehind(block, rest, open + |STRING|, close);
    }
  }

  lemma CalmHasNoValue(s: string)
    requires Calm(s)
    ensures ValueIn(s) == None
  {
  }

  /** The first opening tag is the one behind the calm text before the value. */
  lemma OpeningIsHere(before: string, behind: string)
    requires Calm(before)
    ensures Index(before + (STRING + behind), STRING) == |before|
  {
    hide MatchAt;
    MatchHere(STRING, behind);
    SkipBlock(before, STRING + behind, STRING, STRING);
  }

  /** And the first closing tag is the one behind the value. */
  lemma ClosingIsThere(before: string, text: string, rest: string)
    requires Calm(before) && Calm(text)
    ensures Index(before + (STRING + (text + (END_STRING + rest))), END_STRING) == |before| + |STRING| + |text|
  {
    hide MatchAt;
    var r2 := text + (END_STRING + rest);
    MatchHere(END_STRING, rest);
    SkipBlock(text, END_STRING + rest, END_STRING, END_STRING);
    SkipOpening(r2);
    SkipBlock(before, STRING + r2, END_STRING, END_STRING);
  }

  lemma ValueOfText(before: string, text: string, rest: string)
    requires Calm(before) && Calm(text)
    ensures ValueIn(before + (STRING + (text + (END_STRING + rest)))) == Some(text)
  {
    hide MatchAt, Calm;
    var s := before + (STRING + (text + (END_STRING + rest)));
    OpeningIsHere(before, text + (END_STRING + rest));
    ClosingIsThere(before, text, rest);
    assert s[|before| + |STRING|..|before| + |STRING| + |text|] == text;
  }

  lemma SkipOpening(rest: string)
    ensures Index(STRING + rest, END_STRING) == Shift(|STRING|, Index(rest, END_STRING))
  {
    forall i | 0 <= i < |STRING| ensures !MatchAt(STRING + rest, END_STRING, i) {
      NoMatchWithout(STRING + rest, END_STRING, i, if i == 0 then 1 else 0);
    }
    SearchSkips(STRING, rest, END_STRING);
  }

  lemma PrintStartsWithTag(entries: seq<Entry>, footer: string)
    requires AtTag(footer)
    ensures AtTag(Print(entries, footer))
  {
  }

  lemma ValueOfTextEntry(e: Entry, rest: string)
    requires e.TextEntry? && WellFormedEntry(e)
    ensures ValueIn(PrintValue(e) + rest) == Some(e.text)
  {
    hide ValueIn;
    ValueOfText(e.before, e.text, e.after + rest);
    Regroup(END_STRING, e.after, rest);
    Regroup(e.text, END_STRING + e.after, rest);
    Regroup(STRING, e.text + (END_STRING + e.after), rest);
    Regroup(e.before, STRING + (e.text + (END_STRING + e.after)), rest);
  }

  lemma ValueBehindCalm(body: string, rest: string)
    requires Calm(body) && AtTag(rest)
    ensures ValueIn(body + rest) == ValueIn(rest)
  {
    hide ValueIn, MatchAt;
    SkipBlock(body, rest, STRING, STRING);
    SkipBlock(body, rest, END_STRING, END_STRING);
    ValueBehindBlock(body, rest);
  }

  lemma ValueBehindKeyTag(key: string, behind: string)
    requires '<' !in key
    ensures ValueIn(KeyTag(key) + behind) == ValueIn(behind)
  {
    hide ValueIn, MatchAt, KeyTag;
    SkipKeyTag(key, behind, STRING);
    SkipKeyTag(key, behind, END_STRING);
    ValueBehindBlock(KeyTag(key), behind);
  }

  /** Behind a key, the scanner finds the first string value from this entry on. */
  lemma {:induction false} ValueIsFirstText(entries: seq<Entry>, footer: string)
    requires WellFormed(entries, footer) && entries != []
    ensures ValueIn(PrintValue(entries[0]) + Print(entries[1..], footer)) == FirstText(entries)
  {
    hide KeyTag, ValueIn, Calm;
    var e, rest := entries[0], Print(entries[1..], footer);
    if e.TextEntry? {
      ValueOfTextEntry(e, rest);
    } else {
      PrintStartsWithTag(entries[1..], footer);
      ValueBehindCalm(e.body, rest);
      if |entries| == 1 {
        CalmHasNoValue(footer);
      } else {
        ValueBehindKeyTag(entries[1].key, PrintValue(entries[1]) + Print(entries[1..][1..], footer));
        ValueIsFirstText(entries[1..], footer);
      }
    }
  }

  // ----- finding the key -----

  lemma NoKeyBehindStart(e: Entry, i: nat)
    requires WellFormedEntry(e) && 1 <= i
    ensures !MatchAt(KeyTag(e.key) + PrintValue(e), KEY, i)
  {
    var n := |KEY| + |e.key|;
    var s := KeyTag(e.key) + PrintValue(e);
    if i < |KeyTag(e.key)| {
      if i == n {
        NoMatchWithout(s, KEY, i, 1);
      } else {
        assert s[i] != '<' by {
          if |KEY| <= i < n { assert s[i] == e.key[i - |KEY|]; }
        }
        NoMatchWithout(s, KEY, i, 0);
      }
    } else {
      NoKeyInValue(e, i - |KeyTag(e.key)|);
      MatchInSuffix(KeyTag(e.key), PrintValue(e), KEY, i);
    }
  }

  lemma NoKeyInsideEntry(e: Entry)
    requires WellFormedEntry(e)
    ensures !Has((KeyTag(e.key) + PrintValue(e))[1..], KEY)
  {
    hide MatchAt, WellFormedEntry, PrintValue;
    var s := KeyTag(e.key) + PrintValue(e);
    assert s == [s[0]] + s[1..];
    forall i: nat ensures !MatchAt(s[1..], KEY, i) {
      NoKeyBehindStart(e, i + 1);
      MatchInSuffix([s[0]], s[1..], KEY, i + 1);
    }
    IndexMeaning(s[1..], KEY);
  }

  lemma NoKeyInValue(e: Entry, i: nat)
    requires WellFormedEntry(e)
    ensures !MatchAt(PrintValue(e), KEY, i)
  {
    if e.OtherEntry? {
      IndexMeaning(e.body, KEY);
    }
    if e.TextEntry? {
      var r1 := END_STRING + e.after;
      var r2 := e.text + r1;
      var r3 := STRING + r2;
      if i < |e.before| {
        NoMatchInBlock(e.before, r3, KEY, KEY, i);
      } else {
        MatchInSuffix(e.before, r3, KEY, i);
        var j := i - |e.before|;
        if j < |STRING| {
          NoMatchWithout(r3, KEY, j, if j == 0 then 1 else 0);
        } else {
          MatchInSuffix(STRING, r2, KEY, j);
          NoKeyInText(e.text, e.after, j - |STRING|);
        }
      }
    }
  }

  lemma NoKeyInText(text: string, after: string, i: nat)
    requires Calm(text) && Calm(after)
    ensures !MatchAt(text + (END_STRING + after), KEY, i)
  {
    var r1 := END_STRING + after;
    if i < |text| {
      NoMatchInBlock(text, r1, KEY, KEY, i);
    } else {
      MatchInSuffix(text, r1, KEY, i);
      var j := i - |text|;
      if j < |END_STRING| {
        NoMatchWithout(r1, KEY, j, if j == 0 then 1 else 0);
      } else {
        IndexMeaning(after, KEY);
        MatchInSuffix(END_STRING, after, KEY, j);
      }
    }
  }

  lemma KeyTagStarts(key: string)
    ensures KEY <= KeyTag(key) && IsTag(KEY)
  {
  }

  lemma SkipToKeyTag(block: string, rest: string, key: string)
    requires !Has(block, KEY) && AtTag(rest)
    ensures Index(block + rest, KeyTag(key)) == Shift(|block|, Index(rest, KeyTag(key)))
  {
    KeyTagStarts(key);
    hide KeyTag, MatchAt;
    SkipBlock(block, rest, KEY, KeyTag(key));
  }

  /** A whole entry with another key is skipped. */
  lemma SkipEntry(e: Entry, rest: string, key: string)
    requires WellFormedEntry(e) && '<' !in key && key != e.key && AtTag(rest)
    ensures var entry := KeyTag(e.key) + PrintValue(e);
            Index(entry + rest, KeyTag(key)) == Shift(|entry|, Index(rest, KeyTag(key)))
  {
    var entry := KeyTag(e.key) + PrintValue(e);
    NoKeyInsideEntry(e);
    KeyTagStarts(e.key);
    KeyTagStarts(key);
    KeyTagMatchesOwnKey(key, e.key, PrintValue(e) + rest);
    hide MatchAt, KeyTag, PrintValue, WellFormedEntry, Has;
    Regroup(KeyTag(e.key), PrintValue(e), rest);
    SkipKeyed(entry, rest, KeyTag(key));
  }

  lemma SkipKeyed(entry: string, rest: string, tag: string)
    requires KEY <= tag && entry != "" && !Has(entry[1..], KEY) && !MatchAt(entry + rest, tag, 0)
    requires AtTag(rest)
    ensures Index(entry + rest, tag) == Shift(|entry|, Index(rest, tag))
  {
    hide MatchAt, Has;
    forall i | 0 <= i < |entry| ensures !MatchAt(entry + rest, tag, i) {
      if i > 0 {
        NoMatchInBlock(entry[1..], rest, KEY, tag, i - 1);
        Uncons(entry, rest);
        MatchInSuffix([entry[0]], entry[1..] + rest, tag, i);
      }
    }
    SearchSkips(entry, rest, tag);
  }

  /** What follows the tag of entry j in a printed dictionary. */
  function Behind(entries: seq<Entry>, footer: string, j: nat): string
    requires j < |entries|
  {
    PrintValue(entries[j]) + Print(entries[j + 1..], footer)
  }

  /** The search for the tag stops at a place with this text behind it. */
  predicate Finds(s: string, tag: string, behind: string) {
    var idx := Index(s, tag);
    0 <= idx && idx + |tag| <= |s| && s[idx + |tag|..] == behind
  }

  lemma FindsHere(tag: string, behind: string)
    requires tag != ""
    ensures Finds(tag + behind, tag, behind)
  {
    hide MatchAt;
    MatchHere(tag, behind);
    DropBlock(tag, behind, 0);
  }

  lemma FindsFurtherOn(block: string, s: string, tag: string, behind: string)
    requires Finds(s, tag, behind) && Index(block + s, tag) == Shift(|block|, Index(s, tag))
    ensures Finds(block + s, tag, behind)
  {
    hide MatchAt;
    DropBlock(block, s, Index(s, tag) + |tag|);
  }

  /** Searching for the key of entry j of a printed dictionary ends at that entry. */
  lemma {:induction false} FindsItsEntry(entries: seq<Entry>, footer: string, j: nat)
    requires WellFormed(entries, footer) && j < |entries|
    ensures Finds(Print(entries, footer), KeyTag(entries[j].key), Behind(entries, footer, j))
  {
    hide *;
    if j == 0 {
      PrintIsTagThenBehind(entries, footer);
      FindsHere(KeyTag(entries[0].key), Behind(entries, footer, 0));
    } else {
      WellFormedTail(entries, footer);
      FindsItsEntry(entries[1..], footer, j - 1);
      BehindTail(entries, footer, j);
      FindsBehindOther(entries, footer, j);
    }
  }

  lemma PrintIsTagThenBehind(entries: seq<Entry>, footer: string)
    requires entries != []
    ensures Print(entries, footer) == KeyTag(entries[0].key) + Behind(entries, footer, 0)
    ensures KeyTag(entries[0].key) != ""
  {
  }

  lemma BehindTail(entries: seq<Entry>, footer: string, j: nat)
    requires 0 < j < |entries|
    ensures Behind(entries[1..], footer, j - 1) == Behind(entries, footer, j)
  {
    assert entries[1..][j - 1 + 1..] == entries[j + 1..];
  }

  /** If the search succeeds behind the first entry, it does so from the start. */
  lemma FindsBehindOther(entries: seq<Entry>, footer: string, j: nat)
    requires WellFormed(entries, footer) && 0 < j < |entries|
    requires Finds(Print(entries[1..], footer), KeyTag(entries[j].key), Behind(entries, footer, j))
    ensures Finds(Print(entries, footer), KeyTag(entries[j].key), Behind(entries, footer, j))
  {
    PrintStartsWithTag(entries[1..], footer);
    WellFormedAt(entries, footer, 0);
    WellFormedAt(entries, footer, j);
    var e, rest := entries[0], Print(entries[1..], footer);
    Regroup(KeyTag(e.key), PrintValue(e), rest);
    assert Print(entries, footer) == (KeyTag(e.key) + PrintValue(e)) + rest && entries[0].key != entries[j].key;
    hide *;
    SkipEntry(e, rest, entries[j].key);
    FindsFurtherOn(KeyTag(e.key) + PrintValue(e), rest, KeyTag(entries[j].key), Behind(entries, footer, j));
  }

  lemma WellFormedTail(entries: seq<Entry>, footer: string)
    requires WellFormed(entries, footer) && entries != []
    ensures WellFormed(entries[1..], footer)
  {
  }

  lemma WellFormedAt(entries: seq<Entry>, footer: string, i: nat)
    requires WellFormed(entries, footer) && i < |entries|
    ensures WellFormedEntry(entries[i]) && '<' !in entries[i].key
  {
  }

  /**
    The scanner on any printed dictionary with distinct keys: for the key of entry j it returns the
    trimmed text of the first string-valued entry from j on. So it is right when the key's own
    value is a string, and otherwise it returns another key's value if one follows.
   */
  lemma ExtractFindsFirstText(header: string, entries: seq<Entry>, footer: string, j: nat, trim: string -> string)
    requires !Has(header, KEY) && WellFormed(entries, footer) && j < |entries|
    ensures ExtractPlistKey(header + Print(entries, footer), entries[j].key, trim)
            == match FirstText(entries[j..]) case None => "" case Some(text) => trim(text)
  {
    hide MatchAt, KeyTag, PrintValue, WellFormed, Print, Finds, Behind;
    FindsInDocument(header, entries, footer, j);
    ValueBehindEntry(entries, footer, j);
    ExtractFound(header + Print(entries, footer), entries[j].key, trim, Behind(entries, footer, j));
  }

  lemma ExtractFound(content: string, key: string, trim: string -> string, behind: string)
    requires Finds(content, KeyTag(key), behind)
    ensures ExtractPlistKey(content, key, trim) == match ValueIn(behind) case None => "" case Some(text) => trim(text)
  {
    hide KeyTag, ValueIn, MatchAt;
  }

  lemma FindsInDocument(header: string, entries: seq<Entry>, footer: string, j: nat)
    requires !Has(header, KEY) && WellFormed(entries, footer) && j < |entries|
    ensures Finds(header + Print(entries, footer), KeyTag(entries[j].key), Behind(entries, footer, j))
  {
    PrintStartsWithTag(entries, footer);
    FindsItsEntry(entries, footer, j);
    hide *;
    SkipToKeyTag(header, Print(entries, footer), entries[j].key);
    FindsFurtherOn(header, Print(entries, footer), KeyTag(entries[j].key), Behind(entries, footer, j));
  }

  lemma ValueBehindEntry(entries: seq<Entry>, footer: string, j: nat)
    requires WellFormed(entries, footer) && j < |entries|
    ensures ValueIn(Behind(entries, footer, j)) == FirstText(entries[j..])
  {
    WellFormedFrom(entries, footer, j);
    hide WellFormed, ValueIn, PrintValue, Print;
    ValueIsFirstText(entries[j..], footer);
    assert entries[j..][1..] == entries[j + 1..];
  }

  lemma WellFormedFrom(entries: seq<Entry>, footer: string, j: nat)
    requires WellFormed(entries, footer) && j < |entries|
    ensures WellFormed(entries[j..], footer)
  {
  }

  /** Round trip: a key printed with a string value is read back. */
  lemma RoundTrip(header: string, entries: seq<Entry>, footer: string, j: nat, trim: string -> string)
    requires !Has(header, KEY) && WellFormed(entries, footer) && j < |entries| && entries[j].TextEntry?
    ensures ExtractPlistKey(header + Print(entries, footer), entries[j].key, trim) == trim(entries[j].text)
  {
    ExtractFindsFirstText(header, entries, footer, j, trim);
  }

  const TRUE := "<true/>"

  lemma TrueIsCalm()
    ensures Calm(TRUE) && Calm("")
  {
    forall u, i: nat | u in {KEY, STRING, END_STRING} ensures !MatchAt(TRUE, u, i) && !MatchAt("", u, i) {
      if i < |TRUE| {
        NoMatchWithout(TRUE, u, i, if i == 0 then 1 else 0);
      }
    }
    forall u | u in {KEY, STRING, END_STRING} ensures !Has(TRUE, u) && !Has("", u) {
      IndexMeaning(TRUE, u);
      IndexMeaning("", u);
    }
  }

  /** Where the round trip fails: a key whose value is not a string is given the next key's text. */
  lemma BooleanReadsNextValue(text: string, trim: string -> string)
    requires Calm(text)
    ensures var entries := [OtherEntry("A", TRUE), TextEntry("B", "", text, "")];
            ExtractPlistKey("" + Print(entries, ""), "A", trim) == trim(text)
  {
    var entries := [OtherEntry("A", TRUE), TextEntry("B", "", text, "")];
    TrueIsCalm();
    assert WellFormed(entries, "");
    hide Calm, Has, Print, WellFormed;
    assert !Has("", KEY) by { TrueHasNoKey(); }
    ExtractFindsFirstText("", entries, "", 0, trim);
    assert entries[0..] == entries && entries[1..] == [entries[1]];
  }

  lemma TrueHasNoKey()
    ensures !Has("", KEY)
  {
  }

  lemma {:induction false} AbsentKeyNotFound(entries: seq<Entry>, footer: string, key: string)
    requires WellFormed(entries, footer) && '<' !in key
    requires forall i :: 0 <= i < |entries| ==> entries[i].key != key
    ensures Index(Print(entries, footer), KeyTag(key)) == -1
  {
    hide MatchAt, KeyTag, PrintValue, WellFormedEntry;
    if entries == [] {
      KeyTagStarts(key);
      SkipToKeyTag(footer, "", key);
      assert footer + "" == footer;
    } else {
      WellFormedAt(entries, footer, 0);
      AbsentKeyNotFound(entries[1..], footer, key);
      PrintStartsWithTag(entries[1..], footer);
      SkipEntry(entries[0], Print(entries[1..], footer), key);
      assert Print(entries, footer)
          == (KeyTag(entries[0].key) + PrintValue(entries[0])) + Print(entries[1..], footer);
    }
  }

  /** A key that is not there yields the empty string. */
  lemma ExtractAbsentKey(header: string, entries: seq<Entry>, footer: string, key: string, trim: string -> string)
    requires !Has(header, KEY) && WellFormed(entries, footer) && '<' !in key
    requires forall i :: 0 <= i < |entries| ==> entries[i].key != key
    ensures ExtractPlistKey(header + Print(entries, footer), key, trim) == ""
  {
    PrintStartsWithTag(entries, footer);
    hide MatchAt, KeyTag, Print, WellFormedEntry;
    SkipToKeyTag(header, Print(entries, footer), key);
    AbsentKeyNotFound(entries, footer, key);
  }

  /** What a printed dictionary looks like. */
  lemma PrintedText(key: string, before: string, text: string, after: string, rest: seq<Entry>, footer: string)
    ensures Print([TextEntry(key, before, text, after)] + rest, footer)
            == "<key>" + key + "</key>" + before + "<string>" + text + "</string>" + after + Print(rest, footer)
  {
    var entries := [TextEntry(key, before, text, after)] + rest;
    assert entries[1..] == rest;
    var tail := Print(rest, footer);
    calc {
      Print(entries, footer);
      KEY + key + END_KEY + (before + (STRING + (text + (END_STRING + after))) + tail);
      "<key>" + key + "</key>" + before + "<string>" + text + "</string>" + after + tail;
    }
  }

  /** The first occurrence of a text. */
  ghost predicate First(s: string, t: string, i: nat) {
    MatchAt(s, t, i) && forall j :: 0 <= j < i ==> !MatchAt(s, t, j)
  }

  lemma FirstIsIndex(s: string, t: string, i: nat)
    requires First(s, t, i)
    ensures Index(s, t) == i
  {
    IndexMeaning(s, t);
  }

  /** The scanner on any text at all: behind the first key tag, it returns what is between the first
      opening and the first closing tag, and nothing when the closing one comes first. */
  lemma ExtractMeaning(content: string, key: string, trim: string -> string, at: nat, open: nat, close: nat)
    requires First(content, "<key>" + key + "</key>", at)
    requires var sub := content[at + |key| + 11..]; First(sub, "<string>", open) && First(sub, "</string>", close)
    ensures var sub := content[at + |key| + 11..];
            && (open < close ==> open + 8 <= close <= |sub|
                                 && ExtractPlistKey(content, key, trim) == trim(sub[open + 8..close]))
            && (close <= open ==> ExtractPlistKey(content, key, trim) == "")
  {
    var sub := content[at + |key| + 11..];
    FirstIsIndex(content, KeyTag(key), at);
    FirstIsIndex(sub, STRING, open);
    FirstIsIndex(sub, END_STRING, close);
    if open < close {
      TagsDoNotOverlap(sub, open, close);
    }
  }
}
