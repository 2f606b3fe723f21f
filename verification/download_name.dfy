/**
 * The name the client gives a downloaded file. Both the admin and the
 * employee client start from a default name, take the part after
 * `filename=` in the Content-Disposition header when the pattern
 * /filename="?(.+)"?/ matches, and append an extension chosen from the
 * Content-Type when the name has no '.'.
 */
module DownloadName {
  import opened Common

  /** The characters `.` does not match in a pattern without the s flag. */
  predicate IsLineTerminator(c: char)
  {
    c == '\n' || c == '\r' || c == '\U{2028}' || c == '\U{2029}'
  }

  predicate NoLineTerminator(s: string)
  {
    forall i :: 0 <= i < |s| ==> !IsLineTerminator(s[i])
  }

  /** Where the line that runs through position i ends: the next terminator, or the end. */
  function RunEnd(s: string, i: nat): (j: nat)
    requires i <= |s|
    ensures i <= j <= |s|
    ensures NoLineTerminator(s[i..j])
    ensures j < |s| ==> IsLineTerminator(s[j])
    decreases |s| - i
  {
    if i == |s| || IsLineTerminator(s[i]) then i
    else
      var j := RunEnd(s, i + 1);
      assert s[i..j] == [s[i]] + s[i + 1..j];
      j
  }

  const Key: string := "filename="

  /**
   * The group captured when the pattern's literal part ends at q: after an
   * opening quote the greedy group runs to the end of the line; a quote with
   * nothing after it on the line is itself the group; without a quote the
   * group runs from q to the end of the line. It needs one character at least.
   */
  function CaptureAt(s: string, q: nat): (c: Option<string>)
    requires q <= |s|
    ensures c.Some? ==> c.value != [] && NoLineTerminator(c.value)
    ensures c.None? <==> q == |s| || IsLineTerminator(s[q])
  {
    if q + 1 < |s| && s[q] == '"' && !IsLineTerminator(s[q + 1]) then Some(s[q + 1..RunEnd(s, q + 1)])
    else if q < |s| && !IsLineTerminator(s[q]) then Some(s[q..RunEnd(s, q)])
    else None
  }

  /** A match of the pattern starts at p. */
  predicate MatchesAt(s: string, p: int)
  {
    OccursAt(s, Key, p) && CaptureAt(s, p + |Key|).Some?
  }

  /**
   * The search for a match, trying each occurrence of `filename=` from
   * `from` on: the leftmost position at which the pattern matches.
   */
  function MatchPosition(s: string, from: nat): (r: Option<nat>)
    requires from <= |s|
    ensures r.Some? ==> from <= r.value && MatchesAt(s, r.value)
                        && forall p :: from <= p < r.value ==> !MatchesAt(s, p)
    ensures r.None? ==> forall p :: from <= p ==> !MatchesAt(s, p)
    decreases |s| - from
  {
    match FindFrom(s, Key, from)
    case None => None
    case Some(p) =>
      if CaptureAt(s, p + |Key|).Some? then Some(p)
      else
        assert !MatchesAt(s, p);
        MatchPosition(s, p + 1)
  }

  /** String.match with /filename="?(.+)"?/: the group of the leftmost match, if any. */
  function FilenameMatch(header: string): (c: Option<string>)
    ensures c.Some? ==> c.value != [] && NoLineTerminator(c.value)
  {
    match MatchPosition(header, 0)
    case None => None
    case Some(p) => CaptureAt(header, p + |Key|)
  }

  /** The group is the one captured at the leftmost position where the pattern matches. */
  lemma FilenameMatchIsLeftmost(header: string, p: nat)
    requires MatchesAt(header, p)
    requires forall p' :: 0 <= p' < p ==> !MatchesAt(header, p')
    ensures FilenameMatch(header) == CaptureAt(header, p + |Key|)
  {
  }

  /** A header in which the pattern matches nowhere leaves the default name in place. */
  lemma NoMatchKeepsDefault(default: string, header: string)
    requires forall p :: 0 <= p ==> !MatchesAt(header, p)
    ensures HeaderName(default, Some(header)) == default
  {
  }

  /**
   * A quoted name is captured with its closing quote: the greedy group takes
   * the rest of the line and the optional quote after it matches nothing.
   */
  lemma QuotedNameKeepsClosingQuote(prefix: string, name: string)
    requires 'f' !in prefix
    requires name != [] && NoLineTerminator(name)
    ensures FilenameMatch(prefix + Key + "\"" + name + "\"") == Some(name + "\"")
  {
    var h := prefix + Key + "\"" + name + "\"";
    var p := |prefix|;
    var q := p + |Key|;
    var rest := name + "\"";
    assert h == prefix + Key + "\"" + rest;
    assert h[p..q] == Key;
    forall p' | 0 <= p' < p
      ensures !MatchesAt(h, p')
    {
      assert h[p'] == prefix[p'];
    }
    assert h[q] == '"';
    assert h[q + 1..] == rest;
    assert NoLineTerminator(rest) by {
      assert forall i :: 0 <= i < |name| ==> rest[i] == name[i];
    }
    RunEndOfClearLine(h, q + 1);
    assert h[q + 1] == rest[0] == name[0];
    assert !IsLineTerminator(h[q + 1]);
    assert h[q + 1..RunEnd(h, q + 1)] == rest;
    assert CaptureAt(h, q) == Some(rest);
    FilenameMatchIsLeftmost(h, p);
  }

  /** A line with no terminator in it runs to the end of the text. */
  lemma {:induction false} RunEndOfClearLine(s: string, i: nat)
    requires i <= |s| && NoLineTerminator(s[i..])
    ensures RunEnd(s, i) == |s|
    decreases |s| - i
  {
    if i < |s| {
      assert s[i] == s[i..][0];
      assert s[i + 1..] == s[i..][1..];
      RunEndOfClearLine(s, i + 1);
    }
  }

  const OpenXmlWord: string := "application/vnd.openxmlformats-officedocument.wordprocessingml.document"

  /** The extension for a content type: the first of the five tests that holds decides; none gives "". */
  function ExtensionFor(contentType: string): (ext: string)
    ensures ext == "" || ext == ".jpeg" || ext == ".pdf" || ext == ".png" || ext == ".doc" || ext == ".docx"
    ensures ext == ".jpeg" <==> Contains(contentType, "jpeg") || Contains(contentType, "jpg")
    ensures ext == "" <==> !Contains(contentType, "jpeg") && !Contains(contentType, "jpg")
                           && !Contains(contentType, "pdf") && !Contains(contentType, "png")
                           && !Contains(contentType, "application/msword") && !Contains(contentType, OpenXmlWord)
  {
    if Contains(contentType, "jpeg") || Contains(contentType, "jpg") then ".jpeg"
    else if Contains(contentType, "pdf") then ".pdf"
    else if Contains(contentType, "png") then ".png"
    else if Contains(contentType, "application/msword") then ".doc"
    else if Contains(contentType, OpenXmlWord) then ".docx"
    else ""
  }

  /** The name the header gives: the captured group when a non-empty header matches, else the default. */
  function HeaderName(default: string, contentDisposition: Option<string>): (name: string)
    ensures contentDisposition.None? || contentDisposition.value == [] ==> name == default
  {
    if contentDisposition.Some? && contentDisposition.value != [] && FilenameMatch(contentDisposition.value).Some?
    then FilenameMatch(contentDisposition.value).value
    else default
  }

  /**
   * The extension step: a name with a '.' is kept; otherwise the content
   * type's extension is appended, and a missing content type throws a
   * TypeError (None: the download is abandoned).
   */
  function WithExtension(name: string, contentType: Option<string>): (r: Option<string>)
    ensures Contains(name, ".") ==> r == Some(name)
    ensures !Contains(name, ".") && contentType.None? ==> r.None?
    ensures !Contains(name, ".") && contentType.Some? ==> r == Some(name + ExtensionFor(contentType.value))
  {
    if Contains(name, ".") then Some(name)
    else if contentType.None? then None
    else Some(name + ExtensionFor(contentType.value))
  }

  /** The name a download is saved under, or None when deriving it throws. */
  function Derived(default: string, contentDisposition: Option<string>, contentType: Option<string>): Option<string>
  {
    WithExtension(HeaderName(default, contentDisposition), contentType)
  }

  /** Each of the five extensions holds a '.'. */
  lemma ExtensionsHaveDot(contentType: string)
    ensures ExtensionFor(contentType) != "" ==> Contains(ExtensionFor(contentType), ".")
  {
    if ExtensionFor(contentType) != "" {
      assert OccursAt(ExtensionFor(contentType), ".", 0);
    }
  }

  lemma ContainsExtends(s: string, t: string, sub: string)
    requires Contains(t, sub)
    ensures Contains(s + t, sub)
  {
    var i :| 0 <= i <= |t| && OccursAt(t, sub, i);
    assert (s + t)[|s| + i..|s| + i + |sub|] == t[i..i + |sub|];
    assert OccursAt(s + t, sub, |s| + i);
  }

  lemma ContainsPrefixExtends(s: string, t: string, sub: string)
    requires Contains(s, sub)
    ensures Contains(s + t, sub)
  {
    var i :| 0 <= i <= |s| && OccursAt(s, sub, i);
    assert (s + t)[i..i + |sub|] == s[i..i + |sub|];
    assert OccursAt(s + t, sub, i);
  }

  /** A text without the first character of `sub` does not contain `sub`. */
  lemma FirstCharAbsent(s: string, sub: string)
    requires sub != [] && sub[0] !in s
    ensures !Contains(s, sub)
  {
    forall i | 0 <= i <= |s|
      ensures !OccursAt(s, sub, i)
    {
      if i + |sub| <= |s| {
        assert s[i..i + |sub|][0] == s[i];
      }
    }
  }

  /** A one-character search is a membership test. */
  lemma ContainsChar(s: string, c: char)
    ensures Contains(s, [c]) <==> c in s
  {
    if c in s {
      var i :| 0 <= i < |s| && s[i] == c;
      assert OccursAt(s, [c], i);
    }
    if Contains(s, [c]) {
      var i :| 0 <= i <= |s| && OccursAt(s, [c], i);
      assert s[i..i + 1][0] == s[i];
    }
  }

  /**
   * Once the extension step yields a name with an extension, running it
   * again changes nothing: a name is extended at most once.
   */
  lemma ExtensionStepIdempotent(name: string, contentType: string)
    requires WithExtension(name, Some(contentType)).value != name
    ensures var once := WithExtension(name, Some(contentType)).value;
            WithExtension(once, Some(contentType)) == Some(once)
  {
    var ext := ExtensionFor(contentType);
    ExtensionsHaveDot(contentType);
    ContainsExtends(name, ext, ".");
  }

  /** jpeg or jpg is checked first, so a type naming both jpg and pdf gets .jpeg. */
  lemma FirstTestWins(name: string, contentType: string)
    requires !Contains(name, ".")
    requires Contains(contentType, "jpg") && Contains(contentType, "pdf")
    ensures WithExtension(name, Some(contentType)) == Some(name + ".jpeg")
  {
  }

  /**
   * The derivation as the clients write it: one local name, replaced by
   * the header's group and then extended in place.
   */
  method DeriveFileName(default: string, contentDisposition: Option<string>, contentType: Option<string>)
    returns (fileName: Option<string>)
    ensures fileName == Derived(default, contentDisposition, contentType)
  {
    var name := default;
    if contentDisposition.Some? && contentDisposition.value != [] {
      var fileNameMatch := FilenameMatch(contentDisposition.value);
      if fileNameMatch.Some? {
        name := fileNameMatch.value;
      }
    }
    if !Contains(name, ".") {
      if contentType.None? {
        return None;
      }
      var ct := contentType.value;
      if Contains(ct, "jpeg") || Contains(ct, "jpg") {
        name := name + ".jpeg";
      } else if Contains(ct, "pdf") {
        name := name + ".pdf";
      } else if Contains(ct, "png") {
        name := name + ".png";
      } else if Contains(ct, "application/msword") {
        name := name + ".doc";
      } else if Contains(ct, OpenXmlWord) {
        name := name + ".docx";
      } else {
        assert name + ExtensionFor(ct) == name;
      }
    }
    return Some(name);
  }
}
