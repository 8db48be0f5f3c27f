/**
 * Country strings scraped from a site page: the cleaning pipeline of
 * `_normalize_country_string` and the best-effort `_country_to_continent` mapping.
 */
module Country {
  import opened Wrappers
  import opened Text

  // ---------------------------------------------------------------------------
  // Removing parenthetical notes: `re.sub(r"\(.*?\)", "", s)`
  // ---------------------------------------------------------------------------

  /**
   * For the text `t` that follows a '(', the index of the ')' that the lazy `.*?\)`
   * stops at: the first ')', provided no newline (which `.` does not match) comes first.
   */
  function CloseParen(t: string): (r: Option<nat>)
    ensures r.Some? ==> r.value < |t| && t[r.value] == ')' && ')' !in t[..r.value] && '\n' !in t[..r.value]
    ensures r.None? ==> forall j :: 0 <= j < |t| && t[j] == ')' ==> '\n' in t[..j]
  {
    if t == [] || t[0] == '\n' then None
    else if t[0] == ')' then Some(0)
    else match CloseParen(t[1..])
      case Some(j) =>
        assert t[..j + 1] == [t[0]] + t[1..][..j];
        Some(j + 1)
      case None =>
        assert forall j :: 1 <= j <= |t| ==> t[..j] == [t[0]] + t[1..][..j - 1];
        None
  }

  /** No `( … )` span that the regex would match is left in `s`. */
  predicate NoParenthetical(s: string) {
    forall i :: 0 <= i < |s| && s[i] == '(' ==> CloseParen(s[i + 1..]).None?
  }

  /** Every `( … )` span is removed, scanning left to right and resuming after each ')'. */
  function RemoveParenthetical(s: string): (r: string)
    ensures |r| <= |s|
    ensures forall c :: c in r ==> c in s
    ensures '(' !in s ==> r == s
    decreases |s|
  {
    if s == [] then []
    else if s[0] == '(' && CloseParen(s[1..]).Some? then
      var rest := RemoveParenthetical(s[CloseParen(s[1..]).value + 2..]);
      assert forall c :: c in s[CloseParen(s[1..]).value + 2..] ==> c in s;
      rest
    else
      [s[0]] + RemoveParenthetical(s[1..])
  }

  /** One unfolding step of the removal when no span starts at the first character. */
  lemma KeepFirst(s: string)
    requires s != [] && !(s[0] == '(' && CloseParen(s[1..]).Some?)
    ensures RemoveParenthetical(s) == [s[0]] + RemoveParenthetical(s[1..])
  {
  }

  /** Text in which no ')' can close a span still has none after the removal. */
  lemma {:induction false} UnclosedStaysUnclosed(t: string)
    requires CloseParen(t).None?
    ensures CloseParen(RemoveParenthetical(t)).None?
    decreases |t|
  {
    if t != [] && t[0] != '\n' {
      assert t[0] != ')';
      assert CloseParen(t[1..]).None?;
      UnclosedStaysUnclosed(t[1..]);
      KeepFirst(t);
      var r := RemoveParenthetical(t);
      assert r[1..] == RemoveParenthetical(t[1..]);
    } else if t != [] {
      KeepFirst(t);
    }
  }

  /** After the removal no span that the regular expression would match is left. */
  lemma {:induction false} ParentheticalsGone(s: string)
    ensures NoParenthetical(RemoveParenthetical(s))
    decreases |s|
  {
    if s == [] {
    } else if s[0] == '(' && CloseParen(s[1..]).Some? {
      ParentheticalsGone(s[CloseParen(s[1..]).value + 2..]);
    } else {
      ParentheticalsGone(s[1..]);
      KeepFirst(s);
      var rest := RemoveParenthetical(s[1..]);
      var r := RemoveParenthetical(s);
      if s[0] == '(' {
        UnclosedStaysUnclosed(s[1..]);
      }
      assert r[1..] == rest;
      assert forall i :: 1 <= i < |r| ==> r[i + 1..] == rest[i..];
    }
  }

  /** A closed span is dropped as a whole and scanning resumes after its ')'. */
  lemma ParentheticalDropped(note: string, rest: string)
    requires ')' !in note && '\n' !in note
    ensures RemoveParenthetical("(" + note + ")" + rest) == RemoveParenthetical(rest)
  {
    var s := "(" + note + ")" + rest;
    assert s[1..] == note + ")" + rest;
    assert s[1..][|note|] == ')' && s[1..][..|note|] == note;
    assert CloseParen(s[1..]) == Some(|note|);
    assert s[|note| + 2..] == rest;
  }

  /** A '(' that no ')' closes, or that a newline separates from it, is kept. */
  lemma UnclosedParenKept(t: string)
    requires CloseParen(t).None?
    ensures RemoveParenthetical("(" + t) == "(" + RemoveParenthetical(t)
  {
    var s := "(" + t;
    assert s[1..] == t;
    KeepFirst(s);
  }

  /** The removal keeps the first character of `prefix + rest` when `prefix` opens nothing. */
  lemma KeepFirstOfPrefix(prefix: string, rest: string)
    requires prefix != [] && '(' !in prefix
    ensures RemoveParenthetical(prefix + rest) == [prefix[0]] + RemoveParenthetical(prefix[1..] + rest)
  {
    var s := prefix + rest;
    assert s[0] == prefix[0] && s[1..] == prefix[1..] + rest;
    KeepFirst(s);
  }

  /** Text before the first '(' is kept as it is. */
  lemma {:induction false} TextBeforeParenKept(prefix: string, rest: string)
    requires '(' !in prefix
    ensures RemoveParenthetical(prefix + rest) == prefix + RemoveParenthetical(rest)
  {
    if prefix != [] {
      KeepFirstOfPrefix(prefix, rest);
      TextBeforeParenKept(prefix[1..], rest);
      assert prefix == [prefix[0]] + prefix[1..];
    } else {
      assert prefix + rest == rest;
    }
  }

  // ---------------------------------------------------------------------------
  // Removing labels: `re.sub(r"<Label>[:\s]*", "", s, flags=re.IGNORECASE)`
  // ---------------------------------------------------------------------------

  /** `s` starts with `marker` (given in lower case), ignoring case. */
  predicate StartsWithLabel(s: string, marker: string) {
    |marker| <= |s| && Lower(s[..|marker|]) == marker
  }

  /** The characters `[:\s]*` consumes after a marker. */
  predicate IsLabelTail(c: char) { c == ':' || IsSpace(c) }

  /** Every case-insensitive occurrence of `marker`, with the colons and whitespace after it, is removed. */
  function RemoveLabel(s: string, marker: string): (r: string)
    requires marker != []
    ensures |r| <= |s|
    ensures forall c :: c in r ==> c in s
    ensures (forall i :: 0 <= i <= |s| ==> !StartsWithLabel(s[i..], marker)) ==> r == s
    decreases |s|
  {
    if s == [] then []
    else if StartsWithLabel(s, marker) then
      assert s[0..] == s;
      var tail := LStripBy(s[|marker|..], IsLabelTail);
      assert forall c :: c in tail ==> c in s;
      RemoveLabel(tail, marker)
    else
      assert forall i :: 0 <= i <= |s| - 1 ==> s[1..][i..] == s[i + 1..];
      [s[0]] + RemoveLabel(s[1..], marker)
  }

  /**
   * A label written in any case, with the separators after it, disappears: with the
   * marker "state party", "State Party: France" reads "France".
   */
  lemma LabelDropped(written: string, marker: string, sep: string, rest: string)
    requires marker != [] && |written| == |marker| && Lower(written) == marker
    requires forall c :: c in sep ==> IsLabelTail(c)
    requires rest == [] || !IsLabelTail(rest[0])
    ensures RemoveLabel(written + sep + rest, marker) == RemoveLabel(rest, marker)
  {
    var s := written + sep + rest;
    assert s[..|marker|] == written;
    assert s[|marker|..] == sep + rest;
    var n := LeadingCount(sep + rest, IsLabelTail);
    LeadingCountOfRun(sep, rest, IsLabelTail);
    assert (sep + rest)[|sep|..] == rest;
  }

  lemma {:induction false} LeadingCountOfRun(run: string, rest: string, strip: char -> bool)
    requires forall c :: c in run ==> strip(c)
    requires rest == [] || !strip(rest[0])
    ensures LeadingCount(run + rest, strip) == |run|
  {
    if run != [] {
      assert (run + rest)[1..] == run[1..] + rest;
      LeadingCountOfRun(run[1..], rest, strip);
    } else {
      assert run + rest == rest;
    }
  }

  // ---------------------------------------------------------------------------
  // `_normalize_country_string`
  // ---------------------------------------------------------------------------

  const MaxCountryLength: nat := 120

  /** `s[:120].rsplit(" ", 1)[0]` when `s` is longer than 120 characters. */
  function Clamp(s: string): (r: string)
    ensures r <= s && |r| <= MaxCountryLength
    ensures |s| <= MaxCountryLength ==> r == s
    ensures |s| > MaxCountryLength && ' ' !in s[..MaxCountryLength] ==> r == s[..MaxCountryLength]
    ensures |s| > MaxCountryLength && ' ' in s[..MaxCountryLength] ==>
              |r| < MaxCountryLength && s[|r|] == ' ' && ' ' !in s[|r| + 1..MaxCountryLength]
  {
    if |s| > MaxCountryLength then
      var r := BeforeLast(s[..MaxCountryLength], ' ');
      assert ' ' in s[..MaxCountryLength] ==> s[..MaxCountryLength][|r| + 1..] == s[|r| + 1..MaxCountryLength];
      r
    else s
  }

  /** `if ";" in s: s = s.split(";")[0].strip()` */
  function FirstSemicolonPart(s: string): (r: string)
    ensures ';' in s ==> r == Strip(Before(s, ';'))
    ensures ';' !in s ==> r == s
    ensures ';' !in r
    ensures forall c :: c in r ==> c in s
  {
    if ';' in s then Strip(Before(s, ';')) else s
  }

  /** `if "," in s and len(s.split(",")[0]) > 1: s = s.split(",")[0].strip()` */
  function FirstCommaPart(s: string): (r: string)
    ensures forall c :: c in r ==> c in s
    ensures ',' in s && |Before(s, ',')| > 1 ==> r == Strip(Before(s, ',')) && ',' !in r
    ensures !(',' in s && |Before(s, ',')| > 1) ==> r == s
  {
    if ',' in s && |Before(s, ',')| > 1 then Strip(Before(s, ',')) else s
  }

  /** `_normalize_country_string`: a concise country name out of a scraped "State Party" field. */
  function NormalizeCountryString(s: string): (r: string)
    ensures s == [] ==> r == []
    ensures ';' !in r
    ensures |r| <= MaxCountryLength
    ensures forall c :: c in r ==> c in s
  {
    if s == [] then []
    else
      var noNotes := RemoveParenthetical(s);
      var noLabels := RemoveLabel(RemoveLabel(noNotes, "state party"), "country");
      var firstPart := FirstCommaPart(FirstSemicolonPart(Strip(noLabels)));
      var r := Clamp(firstPart);
      assert forall c :: c in r ==> c in firstPart;
      r
  }

  /** No label starts anywhere in `s`, in any case. */
  predicate LabelFree(s: string) {
    forall i :: 0 <= i <= |s| ==> !StartsWithLabel(s[i..], "state party") && !StartsWithLabel(s[i..], "country")
  }

  /** A country name that the cleaning has nothing to remove from, cut at or clamp. */
  predicate CleanName(s: string) {
    && s != [] && |s| <= MaxCountryLength
    && '(' !in s && ';' !in s && ',' !in s && LabelFree(s)
    && !IsSpace(s[0]) && !IsSpace(s[|s| - 1])
  }

  /** Text that neither starts nor ends with whitespace is its own `strip()`. */
  lemma StripOfTrimmed(s: string)
    requires s == [] || (!IsSpace(s[0]) && !IsSpace(s[|s| - 1]))
    ensures Strip(s) == s
  {
    if s != [] {
      assert LeadingCount(s, IsSpace) == 0;
    }
  }

  /** `split(sep)[0]` of a text that has `sep` right after `prefix` is `prefix`. */
  lemma {:induction false} BeforeSeparator(prefix: string, sep: char, rest: string)
    requires sep !in prefix
    ensures Before(prefix + [sep] + rest, sep) == prefix
  {
    if prefix != [] {
      assert (prefix + [sep] + rest)[1..] == prefix[1..] + [sep] + rest;
      BeforeSeparator(prefix[1..], sep, rest);
    }
  }

  /** Without notes or labels, the cleaning is the strip, the cuts and the clamp. */
  lemma NothingToRemove(s: string)
    requires s != [] && '(' !in s && LabelFree(s)
    ensures NormalizeCountryString(s) == Clamp(FirstCommaPart(FirstSemicolonPart(Strip(s))))
  {
    assert RemoveParenthetical(s) == s;
    assert RemoveLabel(s, "state party") == s;
    assert RemoveLabel(s, "country") == s;
  }

  /** A clean country name comes out of the cleaning unchanged. */
  lemma CleanNameUnchanged(s: string)
    requires CleanName(s)
    ensures NormalizeCountryString(s) == s
  {
    NothingToRemove(s);
    StripOfTrimmed(s);
  }

  /** The first ';' part of `name;rest` after the strip is `name`, stripped. */
  lemma FirstSegmentAfterStrip(name: string, rest: string)
    requires name != [] && !IsSpace(name[0]) && ';' !in name
    ensures FirstSemicolonPart(Strip(name + ";" + rest)) == Strip(name)
  {
    var s := name + ";" + rest;
    var t := Strip(s);
    assert LeadingCount(s, IsSpace) == 0;
    assert s[|name|] == ';' && !IsSpace(';');
    assert |name| < |t|;
    assert t == name + ";" + s[|name| + 1..|t|];
    BeforeSeparator(name, ';', s[|name| + 1..|t|]);
  }

  /**
   * Of several countries separated by ';', the first is kept: a clean name followed by
   * ';' and text without notes or labels comes out as that name.
   */
  lemma FirstCountryKept(name: string, rest: string)
    requires CleanName(name) && '(' !in rest && LabelFree(name + ";" + rest)
    ensures NormalizeCountryString(name + ";" + rest) == name
  {
    var s := name + ";" + rest;
    assert '(' !in s;
    NothingToRemove(s);
    FirstSegmentAfterStrip(name, rest);
    StripOfTrimmed(name);
  }

  // ---------------------------------------------------------------------------
  // `_country_to_continent` and its table `_COUNTRY_CONTINENT`
  // ---------------------------------------------------------------------------

  /** The six continent names the mapping can produce. */
  const Continents: set<string> := {"Asia", "Europe", "Africa", "North America", "South America", "Oceania"}

  /** The entries `(key, continent)` for each of `keys`, in order. */
  function Entries(keys: seq<string>, continent: string): (r: seq<(string, string)>)
    ensures |r| == |keys|
    ensures forall i :: 0 <= i < |keys| ==> r[i] == (keys[i], continent)
  {
    seq(|keys|, i requires 0 <= i < |keys| => (keys[i], continent))
  }

  /** Every value of `table` is one of the six continents. */
  predicate MapsToContinents(table: seq<(string, string)>) {
    forall i :: 0 <= i < |table| ==> table[i].1 in Continents
  }

  lemma ConcatMapsToContinents(a: seq<(string, string)>, b: seq<(string, string)>)
    requires MapsToContinents(a) && MapsToContinents(b)
    ensures MapsToContinents(a + b)
  {
    assert forall i :: |a| <= i < |a + b| ==> (a + b)[i] == b[i - |a|];
  }

  const AsiaKeys: seq<string> := [
    "China", "India", "Cambodia", "Japan", "Republic of Korea", "Korea, Republic of", "Korea",
    "Nepal", "Thailand", "Malaysia", "Indonesia", "Vietnam", "Pakistan", "Sri Lanka",
    "Bangladesh", "Myanmar", "Philippines", "India, Nepal"]
  const EuropeKeys: seq<string> := [
    "France", "Germany", "United Kingdom", "Italy", "Spain", "Poland", "Russian Federation",
    "Ukraine", "Switzerland", "Belgium"]
  const AfricaKeys: seq<string> := ["Egypt", "Morocco", "South Africa", "Ethiopia", "Kenya"]
  const NorthAmericaKeys: seq<string> := ["United States of America", "United States", "Canada", "Mexico"]
  const SouthAmericaKeys: seq<string> := ["Brazil", "Argentina", "Peru"]
  const OceaniaKeys: seq<string> := ["Australia", "New Zealand"]
  const WestAsiaKeys: seq<string> := ["Iran (Islamic Republic of)", "Iran", "Saudi Arabia"]

  /** `_COUNTRY_CONTINENT`, in declaration order. */
  const CountryTable: seq<(string, string)> :=
    Entries(AsiaKeys, "Asia") + Entries(EuropeKeys, "Europe") + Entries(AfricaKeys, "Africa")
    + Entries(NorthAmericaKeys, "North America") + Entries(SouthAmericaKeys, "South America")
    + Entries(OceaniaKeys, "Oceania") + Entries(WestAsiaKeys, "Asia")

  lemma TableMapsToContinents()
    ensures MapsToContinents(CountryTable)
  {
    var t := Entries(AsiaKeys, "Asia");
    ConcatMapsToContinents(t, Entries(EuropeKeys, "Europe"));
    t := t + Entries(EuropeKeys, "Europe");
    ConcatMapsToContinents(t, Entries(AfricaKeys, "Africa"));
    t := t + Entries(AfricaKeys, "Africa");
    ConcatMapsToContinents(t, Entries(NorthAmericaKeys, "North America"));
    t := t + Entries(NorthAmericaKeys, "North America");
    ConcatMapsToContinents(t, Entries(SouthAmericaKeys, "South America"));
    t := t + Entries(SouthAmericaKeys, "South America");
    ConcatMapsToContinents(t, Entries(OceaniaKeys, "Oceania"));
    t := t + Entries(OceaniaKeys, "Oceania");
    ConcatMapsToContinents(t, Entries(WestAsiaKeys, "Asia"));
  }

  /** The first entry of the table is China, in Asia. */
  lemma TableStartsWithChina()
    ensures |CountryTable| > 0 && CountryTable[0] == ("China", "Asia")
  {
    var head := Entries(AsiaKeys, "Asia");
    assert head[0] == ("China", "Asia");
    assert CountryTable[0] == head[0];
  }

  /** `table[name]` when `name in table`. */
  function TableGet(table: seq<(string, string)>, name: string): (r: Option<string>)
    ensures r.Some? ==> exists i :: 0 <= i < |table| && table[i] == (name, r.value)
    ensures r.None? <==> forall i :: 0 <= i < |table| ==> table[i].0 != name
  {
    if table == [] then None
    else if table[0].0 == name then Some(table[0].1)
    else
      var r := TableGet(table[1..], name);
      assert forall i :: 1 <= i < |table| ==> table[1..][i - 1] == table[i];
      r
  }

  /** `k.lower() in key.lower() or key.lower() in k.lower()` */
  predicate Overlaps(key: string, k: string) {
    Contains(Lower(key), Lower(k)) || Contains(Lower(k), Lower(key))
  }

  /** The value of the first table entry, in declaration order, whose key overlaps `key`. */
  function FirstOverlap(key: string, table: seq<(string, string)>): (r: Option<string>)
    ensures r.None? <==> forall i :: 0 <= i < |table| ==> !Overlaps(key, table[i].0)
    ensures forall i :: (0 <= i < |table| && Overlaps(key, table[i].0)
                         && (forall j :: 0 <= j < i ==> !Overlaps(key, table[j].0)))
                        ==> r == Some(table[i].1)
    ensures r.Some? ==> exists i :: 0 <= i < |table| && r.value == table[i].1
  {
    if table == [] then None
    else if Overlaps(key, table[0].0) then Some(table[0].1)
    else
      var r := FirstOverlap(key, table[1..]);
      assert forall i :: 1 <= i < |table| ==> table[1..][i - 1] == table[i];
      r
  }

  /** `\b<word>\b` matches `key` at position `p`, ignoring case (`word` in lower case). */
  predicate WordAt(key: string, p: nat, word: string) {
    && p + |word| <= |key|
    && Lower(key[p..p + |word|]) == word
    && (p == 0 || !IsWordChar(key[p - 1]))
    && (p + |word| == |key| || !IsWordChar(key[p + |word|]))
  }

  /** No alternative of `words` matches at position `p`. */
  predicate NoWordAt(key: string, p: nat, words: seq<string>) {
    forall w :: 0 <= w < |words| ==> !WordAt(key, p, words[w])
  }

  /** The first alternative of `words` that matches at position `p`. */
  function FirstWordAt(key: string, p: nat, words: seq<string>): (r: Option<nat>)
    ensures r.Some? ==> r.value < |words| && WordAt(key, p, words[r.value])
    ensures r.Some? ==> forall w :: 0 <= w < r.value ==> !WordAt(key, p, words[w])
    ensures r.None? <==> NoWordAt(key, p, words)
  {
    if words == [] then None
    else if WordAt(key, p, words[0]) then Some(0)
    else match FirstWordAt(key, p, words[1..])
      case Some(w) => Some(w + 1)
      case None => None
  }

  /**
   * `re.search(r"\b(w1|w2|…)\b", key, re.IGNORECASE)` from position `p` on: the leftmost
   * position with a match, and there the first alternative that matches.
   */
  function SearchWords(key: string, p: nat, words: seq<string>): (r: Option<(nat, nat)>)
    requires p <= |key|
    ensures r.Some? ==> p <= r.value.0 <= |key| && r.value.1 < |words|
    ensures r.Some? ==> WordAt(key, r.value.0, words[r.value.1])
    ensures r.Some? ==> forall w :: 0 <= w < r.value.1 ==> !WordAt(key, r.value.0, words[w])
    ensures r.Some? ==> forall q :: p <= q < r.value.0 ==> NoWordAt(key, q, words)
    ensures r.None? ==> forall q :: p <= q <= |key| ==> NoWordAt(key, q, words)
    decreases |key| - p
  {
    var here := FirstWordAt(key, p, words);
    if here.Some? then Some((p, here.value))
    else if p == |key| then None
    else SearchWords(key, p + 1, words)
  }

  /** The alternatives of the first word test, in lower case. */
  const ContinentHints: seq<string> := ["asia", "european", "africa", "americ", "oceania", "pacific"]

  /** The alternatives of the second word test, in lower case. */
  const ContinentWords: seq<string> := ["asia", "africa", "europe", "oceania", "pacific", "america", "americas"]

  /** A text that contains a needle contains every prefix of that needle. */
  lemma {:induction false} ContainsPrefix(s: string, needle: string, prefix: string)
    requires Contains(s, needle) && prefix <= needle
    ensures Contains(s, prefix)
    decreases |s|
  {
    if !(needle <= s) {
      ContainsPrefix(s[1..], needle, prefix);
    }
  }

  /** A text mentioning "United States" mentions "United". */
  lemma UnitedStatesNamesUnited(key: string)
    ensures Contains(key, "United States") ==> Contains(key, "United")
  {
    if Contains(key, "United States") {
      assert "United" <= "United States";
      ContainsPrefix(key, "United States", "United");
    }
  }

  /**
   * The continent named by a matched word: an "amer…" word is North America exactly when
   * the text contains "United" or "USA" (the third test, "United States", adds nothing),
   * and South America otherwise; a "pacif…" word is Oceania; any other word is capitalized.
   */
  function ContinentOfWord(key: string, found: string): (r: string)
    ensures "amer" <= Lower(found) ==>
              (r == "North America" <==> Contains(key, "United") || Contains(key, "USA"))
              && (r == "North America" || r == "South America")
    ensures !("amer" <= Lower(found)) && "pacif" <= Lower(found) ==> r == "Oceania"
    ensures !("amer" <= Lower(found)) && !("pacif" <= Lower(found)) ==> r == Capitalize(found)
  {
    UnitedStatesNamesUnited(key);
    if "amer" <= Lower(found) then
      if Contains(key, "United") || Contains(key, "USA") || Contains(key, "United States") then "North America"
      else "South America"
    else if "pacif" <= Lower(found) then "Oceania"
    else Capitalize(found)
  }

  /** `country_name.strip().rstrip(".;")` */
  function AliasKey(name: string): string {
    RStripBy(Strip(name), c => c == '.' || c == ';')
  }

  const ChinaAlias: string := ", people's republic of china"

  /** The text of `key` that a match `m` of `SearchWords(key, _, words)` covers. */
  function MatchedText(key: string, m: (nat, nat), words: seq<string>): (found: string)
    requires m.1 < |words| && WordAt(key, m.0, words[m.1])
    ensures Lower(found) == words[m.1]
  {
    key[m.0..m.0 + |words[m.1]|]
  }

  /**
   * The word fallback: None unless the hint test and the continent-word test both match;
   * otherwise the continent named by the leftmost continent word.
   */
  function ContinentFromWords(key: string): (r: Option<string>)
    ensures r.None? <==> SearchWords(key, 0, ContinentHints).None? || SearchWords(key, 0, ContinentWords).None?
    ensures r.Some? ==> r == Some(ContinentOfWord(key, MatchedText(key, SearchWords(key, 0, ContinentWords).value, ContinentWords)))
    ensures r.Some? ==> r.value in Continents
  {
    var hint := SearchWords(key, 0, ContinentHints);
    var m := SearchWords(key, 0, ContinentWords);
    if hint.None? || m.None? then None
    else
      var found := MatchedText(key, m.value, ContinentWords);
      WordContinent(key, found, ContinentWords[m.value.1]);
      Some(ContinentOfWord(key, found))
  }

  /** Without a hint word the word fallback finds nothing. */
  lemma NoHintNoContinent(key: string)
    requires forall q :: 0 <= q <= |key| ==> NoWordAt(key, q, ContinentHints)
    ensures ContinentFromWords(key).None?
  {
    var hint := SearchWords(key, 0, ContinentHints);
    assert hint.Some? ==> !NoWordAt(key, hint.value.0, ContinentHints);
  }

  /** Without a continent word of the second test the word fallback finds nothing. */
  lemma NoWordNoContinent(key: string)
    requires forall q :: 0 <= q <= |key| ==> NoWordAt(key, q, ContinentWords)
    ensures ContinentFromWords(key).None?
  {
    var m := SearchWords(key, 0, ContinentWords);
    assert m.Some? ==> !NoWordAt(key, m.value.0, ContinentWords);
  }

  /** The fallbacks after the exact lookup, on the stripped name: alias, overlap, words. */
  function ContinentOfKey(key: string): (r: Option<string>)
    ensures EndsWith(Lower(key), ChinaAlias) ==> r == Some("Asia")
    ensures !EndsWith(Lower(key), ChinaAlias) && FirstOverlap(key, CountryTable).Some? ==>
              r == FirstOverlap(key, CountryTable)
    ensures !EndsWith(Lower(key), ChinaAlias) && FirstOverlap(key, CountryTable).None? ==>
              r == ContinentFromWords(key)
    ensures r.Some? ==> r.value in Continents
  {
    if EndsWith(Lower(key), ChinaAlias) then Some("Asia")
    else
      var overlap := FirstOverlap(key, CountryTable);
      if overlap.Some? then
        TableMapsToContinents();
        overlap
      else ContinentFromWords(key)
  }

  /** `_country_to_continent`: the continent of a country name, or None. */
  function CountryToContinent(name: string): (r: Option<string>)
    ensures name == [] ==> r == None
    ensures name != [] && TableGet(CountryTable, name).Some? ==> r == TableGet(CountryTable, name)
    ensures r.Some? ==> r.value in Continents
  {
    if name == [] then None
    else
      var exact := TableGet(CountryTable, name);
      if exact.Some? then
        TableMapsToContinents();
        exact
      else ContinentOfKey(AliasKey(name))
  }

  /** Any matched word of the second test names one of the six continents. */
  lemma WordContinent(key: string, found: string, word: string)
    requires word in ContinentWords && Lower(found) == word
    ensures ContinentOfWord(key, found) in Continents
  {
    assert word == "asia" || word == "africa" || word == "europe" || word == "oceania"
        || word == "pacific" || word == "america" || word == "americas";
    if word == "america" || word == "americas" {
      assert word[..4] == "amer";
    } else if word == "pacific" {
      assert word[0] != 'a' && word[..5] == "pacif";
    } else {
      assert word[0] != 'p';
      assert word[0] != 'a' || word[1] != 'm';
      CapitalizeByLowerCase(found);
      CapitalizedContinent(word);
    }
  }

  lemma CapitalizedContinent(word: string)
    requires word == "asia" || word == "africa" || word == "europe" || word == "oceania"
    ensures [UpperChar(word[0])] + word[1..] in Continents
  {
    if word == "asia" {
      assert [UpperChar('a')] + "sia" == "Asia";
    } else if word == "africa" {
      assert [UpperChar('a')] + "frica" == "Africa";
    } else if word == "europe" {
      assert [UpperChar('e')] + "urope" == "Europe";
    } else {
      assert [UpperChar('o')] + "ceania" == "Oceania";
    }
  }

  /** `s.capitalize()` depends only on `s.lower()`. */
  lemma CapitalizeByLowerCase(s: string)
    requires s != []
    ensures Capitalize(s) == [UpperChar(Lower(s)[0])] + Lower(s)[1..]
  {
    assert Lower(s)[1..] == Lower(s[1..]);
  }

  /** A name ending in ", people's republic of china" that is not a table key maps to Asia. */
  lemma ChinaAliasIsAsia(name: string)
    requires name != [] && TableGet(CountryTable, name).None?
    requires EndsWith(Lower(AliasKey(name)), ChinaAlias)
    ensures CountryToContinent(name) == Some("Asia")
  {
  }

  /** Otherwise the first table key, in declaration order, overlapping the stripped name decides. */
  lemma FirstOverlapDecides(name: string, i: nat)
    requires name != [] && TableGet(CountryTable, name).None?
    requires !EndsWith(Lower(AliasKey(name)), ChinaAlias)
    requires i < |CountryTable| && Overlaps(AliasKey(name), CountryTable[i].0)
    requires forall j :: 0 <= j < i ==> !Overlaps(AliasKey(name), CountryTable[j].0)
    ensures CountryToContinent(name) == Some(CountryTable[i].1)
  {
  }

  /**
   * A non-empty name that is no table key, has no alias suffix, overlaps no table key and
   * holds no continent hint word has no continent.
   */
  lemma UnknownNameIsNone(name: string)
    requires name != [] && TableGet(CountryTable, name).None?
    requires !EndsWith(Lower(AliasKey(name)), ChinaAlias)
    requires forall i :: 0 <= i < |CountryTable| ==> !Overlaps(AliasKey(name), CountryTable[i].0)
    requires forall q :: 0 <= q <= |AliasKey(name)| ==> NoWordAt(AliasKey(name), q, ContinentHints)
    ensures CountryToContinent(name) == None
  {
    NoHintNoContinent(AliasKey(name));
    assert FirstOverlap(AliasKey(name), CountryTable).None?;
  }

  /**
   * A hint word without a continent word of the second test also gives no continent: the
   * hint "european" is not the word "europe", so "Southern European Area" maps to nothing
   * when no table key overlaps it.
   */
  lemma HintWithoutContinentWordIsNone(name: string)
    requires name != [] && TableGet(CountryTable, name).None?
    requires !EndsWith(Lower(AliasKey(name)), ChinaAlias)
    requires forall i :: 0 <= i < |CountryTable| ==> !Overlaps(AliasKey(name), CountryTable[i].0)
    requires forall q :: 0 <= q <= |AliasKey(name)| ==> NoWordAt(AliasKey(name), q, ContinentWords)
    ensures CountryToContinent(name) == None
  {
    NoWordNoContinent(AliasKey(name));
    assert FirstOverlap(AliasKey(name), CountryTable).None?;
  }

  /**
   * A name that strips down to nothing (whitespace around a run of '.' and ';', with no
   * whitespace inside the run) is a substring of every table key, so the first entry, China, decides: such a name maps to Asia.
   */
  lemma BlankKeyMapsToAsia(name: string)
    requires name != [] && TableGet(CountryTable, name).None? && AliasKey(name) == []
    ensures CountryToContinent(name) == Some("Asia")
  {
    TableStartsWithChina();
    assert Lower(AliasKey(name)) == [];
    assert Contains(Lower(CountryTable[0].0), Lower(AliasKey(name)));
    assert !EndsWith(Lower(AliasKey(name)), ChinaAlias);
    assert FirstOverlap(AliasKey(name), CountryTable) == Some("Asia");
  }
}
