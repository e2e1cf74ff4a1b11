/**
 Searching tasks by a keyword: the keyword is escaped, wrapped in `%`, and handed to a case-insensitive SQL
 pattern match.  Pattern matching follows section 9.7.1 of the PostgreSQL 16 manual: `%` stands for any text,
 `_` for any character, and a backslash makes the character after it literal.

 Case folding is any character mapping that neither moves the three special characters nor maps another
 character onto one of them.
 */
module KeywordSearch {
  import opened Wrappers
  import Text

  predicate Special(c: char) {
    c == '%' || c == '_' || c == '\\'
  }

  predicate LikeMatches(pattern: string, text: string)
    decreases |pattern| + |text|
  {
    if pattern == "" then text == ""
    else if pattern[0] == '%' then
      LikeMatches(pattern[1..], text) || (text != "" && LikeMatches(pattern, text[1..]))
    else if pattern[0] == '\\' then
      |pattern| > 1 && text != "" && text[0] == pattern[1] && LikeMatches(pattern[2..], text[1..])
    else
      text != "" && (pattern[0] == '_' || text[0] == pattern[0]) && LikeMatches(pattern[1..], text[1..])
  }

  /** PostgreSQL rejects a pattern that ends in an unpaired escape character. */
  predicate WellFormed(pattern: string) {
    if pattern == "" then true
    else if pattern[0] == '\\' then |pattern| > 1 && WellFormed(pattern[2..])
    else WellFormed(pattern[1..])
  }

  function Fold(fold: char -> char, s: string): (r: string)
    ensures |r| == |s| && forall i :: 0 <= i < |s| ==> r[i] == fold(s[i])
  {
    seq(|s|, i requires 0 <= i < |s| => fold(s[i]))
  }

  ghost predicate KeepsSpecials(fold: char -> char) {
    forall c :: (Special(c) ==> fold(c) == c) && (Special(fold(c)) ==> Special(c))
  }

  /** `str.replace` of one character. */
  function Replace(s: string, c: char, with: string): string {
    if s == "" then "" else (if s[0] == c then with else [s[0]]) + Replace(s[1..], c, with)
  }

  /** The escaping as written: three replacements, one after the other. */
  function Escaped(keyword: string): string {
    Replace(Replace(Replace(keyword, '\\', "\\\\"), '%', "\\%"), '_', "\\_")
  }

  /** The escaping as meant: every special character, once. */
  function Escape(s: string): string {
    if s == "" then "" else (if Special(s[0]) then ['\\', s[0]] else [s[0]]) + Escape(s[1..])
  }

  /** The pattern sent to the database, or none for a missing or blank keyword. */
  function KeywordClause(keyword: Option<string>): Option<string> {
    if keyword.None? || keyword.value == "" then None
    else
      var cleaned := Text.Strip(keyword.value);
      if cleaned == "" then None else Some("%" + Escaped(cleaned) + "%")
  }

  /** Whether a task with this title passes the keyword filter. */
  predicate Selected(fold: char -> char, keyword: Option<string>, title: string) {
    var clause := KeywordClause(keyword);
    clause.None? || clause.value == "" || LikeMatches(Fold(fold, clause.value), Fold(fold, title))
  }

  predicate OccursAt(part: string, text: string, i: nat) {
    i + |part| <= |text| && text[i..i + |part|] == part
  }

  ghost predicate Contains(text: string, part: string) {
    exists i: nat :: OccursAt(part, text, i)
  }

  // --------------------------------------------------------------------------------------
  // Three replacements are one pass
  // --------------------------------------------------------------------------------------

  lemma {:induction false} ReplaceConcat(a: string, b: string, c: char, with: string)
    ensures Replace(a + b, c, with) == Replace(a, c, with) + Replace(b, c, with)
    decreases |a|
  {
    if a == "" {
      assert a + b == b;
    } else {
      ReplaceConcat(a[1..], b, c, with);
      assert (a + b)[1..] == a[1..] + b;
      var head := if a[0] == c then with else [a[0]];
      calc {
        Replace(a + b, c, with);
        head + Replace(a[1..] + b, c, with);
        head + (Replace(a[1..], c, with) + Replace(b, c, with));
        Replace(a, c, with) + Replace(b, c, with);
      }
    }
  }

  lemma {:induction false} ReplaceOne(x: char, c: char, with: string)
    ensures Replace([x], c, with) == if x == c then with else [x]
  {
    assert [x][1..] == "";
  }

  lemma {:induction false} ReplaceTwo(x: char, y: char, c: char, with: string)
    ensures Replace([x, y], c, with) == (if x == c then with else [x]) + (if y == c then with else [y])
  {
    assert [x, y] == [x] + [y];
    ReplaceConcat([x], [y], c, with);
    ReplaceOne(x, c, with);
    ReplaceOne(y, c, with);
  }

  /** One character through all three replacements. */
  lemma {:induction false} EscapedOne(x: char)
    ensures Escaped([x]) == if Special(x) then ['\\', x] else [x]
  {
    ReplaceOne(x, '\\', "\\\\");
    ReplaceOne(x, '%', "\\%");
    ReplaceOne(x, '_', "\\_");
    ReplaceTwo('\\', '\\', '%', "\\%");
    ReplaceTwo('\\', '\\', '_', "\\_");
    ReplaceTwo('\\', '%', '_', "\\_");
  }

  lemma {:induction false} EscapedConcat(a: string, b: string)
    ensures Escaped(a + b) == Escaped(a) + Escaped(b)
  {
    ReplaceConcat(a, b, '\\', "\\\\");
    var a1, b1 := Replace(a, '\\', "\\\\"), Replace(b, '\\', "\\\\");
    ReplaceConcat(a1, b1, '%', "\\%");
    ReplaceConcat(Replace(a1, '%', "\\%"), Replace(b1, '%', "\\%"), '_', "\\_");
  }

  lemma {:induction false} ReplacementsAreOnePass(s: string)
    ensures Escaped(s) == Escape(s)
  {
    if s == "" {
    } else {
      ReplacementsAreOnePass(s[1..]);
      EscapedConcat([s[0]], s[1..]);
      EscapedOne(s[0]);
      assert s == [s[0]] + s[1..];
      hide Escaped;
    }
  }

  // --------------------------------------------------------------------------------------
  // An escaped keyword matches itself and nothing else
  // --------------------------------------------------------------------------------------

  /** A leading `%` skips any number of characters. */
  lemma {:induction false} PercentSkips(pattern: string, text: string)
    ensures LikeMatches("%" + pattern, text) <==> exists i :: 0 <= i <= |text| && LikeMatches(pattern, text[i..])
    decreases |text|
  {
    assert ("%" + pattern)[1..] == pattern && text[0..] == text;
    if text == "" {
    } else {
      PercentSkips(pattern, text[1..]);
      forall i | 0 <= i < |text| ensures text[1..][i..] == text[i + 1..] {
      }
      if i :| 0 <= i <= |text| && LikeMatches(pattern, text[i..]) && i > 0 {
        assert LikeMatches(pattern, text[1..][i - 1..]);
      }
      if i :| 0 <= i < |text| && LikeMatches(pattern, text[1..][i..]) {
        assert LikeMatches(pattern, text[i + 1..]);
      }
    }
  }

  lemma {:induction false} EscapedPrefix(part: string, text: string)
    ensures LikeMatches(Escape(part) + "%", text) <==> part <= text
    decreases |part|
  {
    if part == "" {
      assert Escape(part) + "%" == "%";
      PercentSkips("", text);
      assert "%" + "" == "%" && LikeMatches("", text[|text|..]);
    } else {
      var rest := part[1..];
      var pattern := Escape(part) + "%";
      var head := if Special(part[0]) then ['\\', part[0]] else [part[0]];
      assert pattern == head + (Escape(rest) + "%");
      assert pattern[|head|..] == Escape(rest) + "%";
      if text != "" {
        EscapedPrefix(rest, text[1..]);
        assert part <= text <==> part[0] == text[0] && rest <= text[1..] by {
          assert part == [part[0]] + rest && text == [text[0]] + text[1..];
        }
      }
    }
  }

  /** Wrapped in `%`, an escaped keyword matches exactly the texts that contain the keyword. */
  lemma {:induction false} WrappedMatchIsSubstring(part: string, text: string)
    ensures LikeMatches("%" + Escape(part) + "%", text) <==> Contains(text, part)
  {
    assert "%" + Escape(part) + "%" == "%" + (Escape(part) + "%");
    PercentSkips(Escape(part) + "%", text);
    forall i | 0 <= i <= |text| ensures LikeMatches(Escape(part) + "%", text[i..]) <==> OccursAt(part, text, i) {
      EscapedPrefix(part, text[i..]);
      if OccursAt(part, text, i) {
        assert text[i..][..|part|] == part;
      }
      if part <= text[i..] {
        assert text[i..i + |part|] == text[i..][..|part|];
      }
    }
  }

  lemma {:induction false} EscapeIsWellFormed(s: string, tail: string)
    requires WellFormed(tail)
    ensures WellFormed(Escape(s) + tail)
  {
    if s == "" {
      assert Escape(s) + tail == tail;
    } else {
      EscapeIsWellFormed(s[1..], tail);
      var head := if Special(s[0]) then ['\\', s[0]] else [s[0]];
      assert Escape(s) + tail == head + (Escape(s[1..]) + tail);
      assert (Escape(s) + tail)[|head|..] == Escape(s[1..]) + tail;
    }
  }

  lemma {:induction false} FoldConcat(fold: char -> char, a: string, b: string)
    ensures Fold(fold, a + b) == Fold(fold, a) + Fold(fold, b)
  {
  }

  /** Folding an escaped keyword is escaping the folded one. */
  lemma {:induction false} FoldEscape(fold: char -> char, s: string)
    requires KeepsSpecials(fold)
    ensures Fold(fold, Escape(s)) == Escape(Fold(fold, s))
  {
    if s == "" {
    } else {
      FoldEscape(fold, s[1..]);
      var head := if Special(s[0]) then ['\\', s[0]] else [s[0]];
      FoldConcat(fold, head, Escape(s[1..]));
      assert Fold(fold, s)[1..] == Fold(fold, s[1..]);
      assert Special('\\') && fold('\\') == '\\';
      assert Fold(fold, head) == if Special(s[0]) then ['\\', fold(s[0])] else [fold(s[0])];
    }
  }

  lemma {:induction false} FoldedClause(fold: char -> char, cleaned: string)
    requires KeepsSpecials(fold)
    ensures Fold(fold, "%" + Escaped(cleaned) + "%") == "%" + Escape(Fold(fold, cleaned)) + "%"
  {
    ReplacementsAreOnePass(cleaned);
    FoldEscape(fold, cleaned);
    hide Escape, Escaped;
    FoldConcat(fold, "%" + Escape(cleaned), "%");
    FoldConcat(fold, "%", Escape(cleaned));
    assert Special('%') && Fold(fold, "%") == "%";
  }

  /** Why the wildcards must be escaped: as they stand, a `_` would be found in every title but the empty one and
      a `%` in every title at all. */
  lemma {:induction false} UnescapedWildcardsMatchAnything(title: string)
    ensures LikeMatches("%_%", title) <==> title != ""
    ensures LikeMatches("%%%", title)
  {
    assert "%" + "_%" == "%_%" && "%" + "%%" == "%%%" && "%" + "%" == "%%" && "%" + "" == "%";
    PercentSkips("_%", title);
    PercentSkips("%%", title);
    PercentSkips("%", title);
    forall text: string ensures LikeMatches("%", text) {
      PercentSkips("", text);
      assert LikeMatches("", text[|text|..]);
    }
    forall i | 0 <= i <= |title| ensures LikeMatches("_%", title[i..]) <==> i < |title| {
      assert "_%"[1..] == "%";
    }
    if title != "" {
      assert LikeMatches("_%", title[0..]);
    }
    assert LikeMatches("%", title[0..]) && LikeMatches("%%", title) && title[0..] == title;
  }

  // --------------------------------------------------------------------------------------
  // Main results
  // --------------------------------------------------------------------------------------

  /** Whatever the keyword contains, the filter keeps exactly the titles that contain it, up to case and the
      keyword's outer spaces; a missing or blank keyword keeps everything. */
  lemma {:induction false} SearchIsSubstring(fold: char -> char, keyword: Option<string>, title: string)
    requires KeepsSpecials(fold)
    ensures Selected(fold, keyword, title) <==>
              || keyword.None? || Text.AllSpace(keyword.value)
              || Contains(Fold(fold, title), Fold(fold, Text.Strip(keyword.value)))
  {
    if keyword.Some? {
      Text.StripEmptyIffBlank(keyword.value);
      var cleaned := Text.Strip(keyword.value);
      if cleaned != "" {
        FoldedClause(fold, cleaned);
        WrappedMatchIsSubstring(Fold(fold, cleaned), Fold(fold, title));
      }
    }
  }

  /** No keyword makes the database reject the pattern. */
  lemma {:induction false} ClauseIsWellFormed(keyword: Option<string>)
    ensures KeywordClause(keyword).Some? ==> WellFormed(KeywordClause(keyword).value)
  {
    var clause := KeywordClause(keyword);
    if clause.Some? {
      var cleaned := Text.Strip(keyword.value);
      ReplacementsAreOnePass(cleaned);
      assert "%"[1..] == "" && WellFormed("%");
      EscapeIsWellFormed(cleaned, "%");
      assert clause.value[1..] == Escape(cleaned) + "%";
    }
  }
}
