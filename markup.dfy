/**
 * `_strip_html`: markup removal for RSS descriptions, with BeautifulSoup when it is
 * installed and a tag-stripping regular expression otherwise.
 */
module Markup {
  import opened Wrappers
  import opened Text

  /**
   * For the text `t` that follows a '<': the index of the '>' that `[^>]+>` stops at,
   * which is the first '>', provided at least one character comes before it.
   */
  function TagClose(t: string): (r: Option<nat>)
    ensures r.Some? ==> 1 <= r.value < |t| && t[r.value] == '>' && '>' !in t[..r.value]
    ensures r.None? <==> '>' !in t || t[0] == '>'
  {
    if '>' in t && IndexOf(t, '>') >= 1 then Some(IndexOf(t, '>')) else None
  }

  /** No `<…>` tag that the regular expression would match is left in `s`. */
  predicate NoTag(s: string) {
    forall i :: 0 <= i < |s| && s[i] == '<' ==> TagClose(s[i + 1..]).None?
  }

  /** `re.sub(r"<[^>]+>", "", s)`: every tag is removed, scanning left to right. */
  function RemoveTags(s: string): (r: string)
    ensures |r| <= |s|
    ensures forall c :: c in r ==> c in s
    ensures '<' !in s ==> r == s
    decreases |s|
  {
    if s == [] then []
    else if s[0] == '<' && TagClose(s[1..]).Some? then
      var rest := RemoveTags(s[TagClose(s[1..]).value + 2..]);
      assert forall c :: c in s[TagClose(s[1..]).value + 2..] ==> c in s;
      rest
    else
      [s[0]] + RemoveTags(s[1..])
  }

  /** One unfolding step of the removal when no tag starts at the first character. */
  lemma KeepFirst(s: string)
    requires s != [] && !(s[0] == '<' && TagClose(s[1..]).Some?)
    ensures RemoveTags(s) == [s[0]] + RemoveTags(s[1..])
  {
  }

  /** Text in which no '>' can close a tag still has none after the removal. */
  lemma UnclosedTagStaysUnclosed(t: string)
    requires TagClose(t).None?
    ensures TagClose(RemoveTags(t)).None?
  {
    if '>' in t {
      KeepFirst(t);
      assert RemoveTags(t)[0] == '>';
    }
  }

  /** After the removal no tag that the regular expression would match is left. */
  lemma {:induction false} TagsGone(s: string)
    ensures NoTag(RemoveTags(s))
    decreases |s|
  {
    if s == [] {
    } else if s[0] == '<' && TagClose(s[1..]).Some? {
      TagsGone(s[TagClose(s[1..]).value + 2..]);
    } else {
      TagsGone(s[1..]);
      KeepFirst(s);
      var rest := RemoveTags(s[1..]);
      var r := RemoveTags(s);
      if s[0] == '<' {
        UnclosedTagStaysUnclosed(s[1..]);
      }
      assert r[1..] == rest;
      assert forall i :: 1 <= i < |r| ==> r[i + 1..] == rest[i..];
    }
  }

  /** A tag `<inner>` is dropped as a whole and scanning resumes after its '>'. */
  lemma TagDropped(inner: string, rest: string)
    requires inner != [] && '>' !in inner
    ensures RemoveTags("<" + inner + ">" + rest) == RemoveTags(rest)
  {
    var s := "<" + inner + ">" + rest;
    assert s[1..] == inner + ">" + rest;
    assert s[1..][|inner|] == '>' && s[1..][..|inner|] == inner;
    assert TagClose(s[1..]) == Some(|inner|);
    assert s[|inner| + 2..] == rest;
  }

  /** The removal keeps the first character of `prefix + rest` when `prefix` opens nothing. */
  lemma KeepFirstOfPrefix(prefix: string, rest: string)
    requires prefix != [] && '<' !in prefix
    ensures RemoveTags(prefix + rest) == [prefix[0]] + RemoveTags(prefix[1..] + rest)
  {
    var s := prefix + rest;
    assert s[0] == prefix[0] && s[1..] == prefix[1..] + rest;
    KeepFirst(s);
  }

  /** Text before the first '<' is kept as it is. */
  lemma {:induction false} TextBeforeTagKept(prefix: string, rest: string)
    requires '<' !in prefix
    ensures RemoveTags(prefix + rest) == prefix + RemoveTags(rest)
  {
    if prefix != [] {
      KeepFirstOfPrefix(prefix, rest);
      TextBeforeTagKept(prefix[1..], rest);
      assert prefix == [prefix[0]] + prefix[1..];
    } else {
      assert prefix + rest == rest;
    }
  }

  /**
   * BeautifulSoup's `get_text(separator=" ", strip=True)` on a document: Some(text) when
   * the library is installed and parsing succeeds, None when it is missing or raises.
   */
  type SoupText = string -> Option<string>

  /** `_strip_html` */
  function StripHtml(text: string, soup: SoupText): (r: string)
    ensures text == [] ==> r == []
    ensures text != [] && soup(text).Some? ==> r == soup(text).value
    ensures text != [] && soup(text).None? ==> r == RemoveTags(text) && NoTag(r)
  {
    if text == [] then []
    else match soup(text)
      case Some(t) => t
      case None =>
        TagsGone(text);
        RemoveTags(text)
  }
}
