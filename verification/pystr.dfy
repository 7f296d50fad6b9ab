/**
 * The Python `str` methods the gateway relies on: `split()` with no argument
 * (runs of whitespace separate tokens, empty tokens are dropped), `split(sep)`
 * with a one-character separator (every separator counts, empty fields are
 * kept) and `startswith`.
 */
module PyStr {

  /** The characters `str.isspace()` accepts, which are those `split()` splits on. */
  predicate IsSpace(c: char) {
    ('\t' <= c <= '\r') || ('\U{1c}' <= c <= '\U{1f}') || c == ' ' ||
    c == '\U{85}' || c == '\U{a0}' || c == '\U{1680}' ||
    ('\U{2000}' <= c <= '\U{200a}') || c == '\U{2028}' || c == '\U{2029}' ||
    c == '\U{202f}' || c == '\U{205f}' || c == '\U{3000}'
  }

  /** The same set listed character by character: ten ASCII characters (tab, line
      feed, vertical tab, form feed, carriage return, the four information
      separators and the space) and nineteen beyond ASCII; the zero-width space,
      the byte-order mark and the Mongolian vowel separator are not among them. */
  lemma SpaceCharacters()
    ensures forall c: char :: c < '\U{80}' ==>
              (IsSpace(c) <==> c in "\t\n\U{b}\U{c}\r\U{1c}\U{1d}\U{1e}\U{1f} ")
    ensures forall c: char :: '\U{80}' <= c ==>
              (IsSpace(c) <==> c in "\U{85}\U{a0}\U{1680}\U{2000}\U{2001}\U{2002}\U{2003}\U{2004}\U{2005}\U{2006}\U{2007}\U{2008}\U{2009}\U{200a}\U{2028}\U{2029}\U{202f}\U{205f}\U{3000}")
    ensures !IsSpace('\U{200b}') && !IsSpace('\U{feff}') && !IsSpace('\U{180e}')
  {
  }

  predicate AllSpace(w: string) {
    forall i :: 0 <= i < |w| ==> IsSpace(w[i])
  }

  /** A token of `split()`: non-empty and free of whitespace. */
  predicate IsToken(w: string) {
    |w| > 0 && forall i :: 0 <= i < |w| ==> !IsSpace(w[i])
  }

  /** Length of the longest whitespace-free prefix of `s`. */
  function TokenEnd(s: string): (n: nat)
    ensures n <= |s|
    ensures forall i :: 0 <= i < n ==> !IsSpace(s[i])
    ensures n < |s| ==> IsSpace(s[n])
  {
    if s == [] || IsSpace(s[0]) then 0 else 1 + TokenEnd(s[1..])
  }

  /** `s.split()`. */
  function Split(s: string): (ws: seq<string>)
    ensures forall i :: 0 <= i < |ws| ==> IsToken(ws[i])
    decreases |s|
  {
    if s == [] then []
    else if IsSpace(s[0]) then Split(s[1..])
    else
      var n := TokenEnd(s);
      [s[..n]] + Split(s[n..])
  }

  /** `gaps[0] + ws[0] + gaps[1] + ... + ws[n-1] + gaps[n]`. */
  function Interleave(gaps: seq<string>, ws: seq<string>): string
    requires |gaps| == |ws| + 1
    decreases |ws|
  {
    if ws == [] then gaps[0] else gaps[0] + ws[0] + Interleave(gaps[1..], ws[1..])
  }

  /** `gaps` can separate `n` tokens: every gap is whitespace, and every gap between
      two tokens (not the leading or trailing one) is non-empty. */
  predicate Separates(gaps: seq<string>, n: nat) {
    |gaps| == n + 1 &&
    (forall i :: 0 <= i < |gaps| ==> AllSpace(gaps[i])) &&
    (forall i :: 0 < i < n ==> gaps[i] != [])
  }

  /** The whitespace runs around and between the tokens of `Split(s)`. */
  function Gaps(s: string): (gaps: seq<string>)
    ensures |gaps| >= 1
    ensures s != [] && IsSpace(s[0]) ==> gaps[0] != []
    decreases |s|
  {
    if s == [] then [""]
    else if IsSpace(s[0]) then
      var g := Gaps(s[1..]);
      [[s[0]] + g[0]] + g[1..]
    else [""] + Gaps(s[TokenEnd(s)..])
  }

  /** Soundness of `Split`: `s` is its tokens with whitespace runs `Gaps(s)` around them. */
  lemma {:induction false} SplitDecomposes(s: string)
    ensures Separates(Gaps(s), |Split(s)|)
    ensures Interleave(Gaps(s), Split(s)) == s
    decreases |s|
  {
    if s == [] {
    } else if IsSpace(s[0]) {
      SplitDecomposes(s[1..]);
      LeadingSpaceStep(s);
    } else {
      var n := TokenEnd(s);
      SplitDecomposes(s[n..]);
      LeadingTokenStep(s[..n], s[n..]);
      assert s == s[..n] + s[n..];
    }
  }

  lemma LeadingSpaceStep(s: string)
    requires s != [] && IsSpace(s[0])
    requires Separates(Gaps(s[1..]), |Split(s[1..])|)
    requires Interleave(Gaps(s[1..]), Split(s[1..])) == s[1..]
    ensures Separates(Gaps(s), |Split(s)|)
    ensures Interleave(Gaps(s), Split(s)) == s
  {
    var t := s[1..];
    assert Gaps(s) == [[s[0]] + Gaps(t)[0]] + Gaps(t)[1..];
    assert Split(s) == Split(t);
    ExtendLeadingGap(s[0], Gaps(t), Split(t));
    assert s == [s[0]] + t;
  }

  lemma LeadingTokenStep(w: string, rest: string)
    requires IsToken(w) && (rest == [] || IsSpace(rest[0]))
    requires Separates(Gaps(rest), |Split(rest)|) && Interleave(Gaps(rest), Split(rest)) == rest
    ensures Separates(Gaps(w + rest), |Split(w + rest)|)
    ensures Interleave(Gaps(w + rest), Split(w + rest)) == w + rest
  {
    var s := w + rest;
    TokenEndOfToken(w, rest);
    assert s[..|w|] == w && s[|w|..] == rest;
    var g, ws := Gaps(rest), Split(rest);
    assert Gaps(s) == [""] + g;
    assert Split(s) == [w] + ws;
    assert ws != [] ==> g[0] != [];
    PrependToken(w, g, ws);
  }

  lemma ExtendLeadingGap(c: char, g: seq<string>, ws: seq<string>)
    requires IsSpace(c) && Separates(g, |ws|)
    ensures Separates([[c] + g[0]] + g[1..], |ws|)
    ensures Interleave([[c] + g[0]] + g[1..], ws) == [c] + Interleave(g, ws)
  {
    ExtendedGapSeparates(c, g, |ws|);
    ExtendedGapInterleave(c, g, ws);
  }

  lemma ExtendedGapInterleave(c: char, g: seq<string>, ws: seq<string>)
    requires |g| == |ws| + 1
    ensures Interleave([[c] + g[0]] + g[1..], ws) == [c] + Interleave(g, ws)
  {
    var g' := [[c] + g[0]] + g[1..];
    if ws != [] {
      assert g'[1..] == g[1..];
      var tail := ws[0] + Interleave(g[1..], ws[1..]);
      assert Interleave(g', ws) == ([c] + g[0]) + tail;
      assert Interleave(g, ws) == g[0] + tail;
    }
  }

  lemma ExtendedGapSeparates(c: char, g: seq<string>, n: nat)
    requires IsSpace(c) && Separates(g, n)
    ensures Separates([[c] + g[0]] + g[1..], n)
  {
    var g' := [[c] + g[0]] + g[1..];
    forall i | 0 <= i < |g'|
      ensures AllSpace(g'[i]) && (0 < i < n ==> g'[i] != [])
    {
      if i == 0 {
        assert forall k :: 0 < k < |g'[0]| ==> g'[0][k] == g[0][k - 1];
      } else {
        assert g'[i] == g[i];
      }
    }
  }

  lemma PrependToken(w: string, g: seq<string>, ws: seq<string>)
    requires IsToken(w) && Separates(g, |ws|)
    requires ws != [] ==> g[0] != []
    ensures Separates([""] + g, |ws| + 1)
    ensures Interleave([""] + g, [w] + ws) == w + Interleave(g, ws)
  {
    var g' := [""] + g;
    forall i | 0 <= i < |g'|
      ensures AllSpace(g'[i]) && (0 < i < |ws| + 1 ==> g'[i] != [])
    {
      if i > 0 {
        assert g'[i] == g[i - 1];
      }
    }
    var ws' := [w] + ws;
    assert g'[1..] == g && ws'[1..] == ws;
    assert Interleave(g', ws') == "" + w + Interleave(g, ws);
  }

  lemma TokenEndOfToken(w: string, t: string)
    requires IsToken(w)
    requires t == [] || IsSpace(t[0])
    ensures TokenEnd(w + t) == |w|
    decreases |w|
  {
    var s := w + t;
    assert s[0] == w[0] && !IsSpace(w[0]);
    assert TokenEnd(s) == 1 + TokenEnd(s[1..]);
    if |w| > 1 {
      assert s[1..] == w[1..] + t;
      assert IsToken(w[1..]) by {
        forall i | 0 <= i < |w[1..]| ensures !IsSpace(w[1..][i]) {
          assert w[1..][i] == w[i + 1];
        }
      }
      TokenEndOfToken(w[1..], t);
    } else {
      assert s[1..] == t;
    }
  }

  /** Completeness of `Split`: any decomposition of `s` into tokens separated by
      whitespace runs is the one `Split` finds. With `SplitDecomposes` this
      characterises `Split(s)` exactly. */
  lemma {:induction false} SplitUnique(s: string, gaps: seq<string>, ws: seq<string>)
    requires forall i :: 0 <= i < |ws| ==> IsToken(ws[i])
    requires Separates(gaps, |ws|)
    requires Interleave(gaps, ws) == s
    ensures Split(s) == ws
    decreases |s|
  {
    if gaps[0] != [] {
      assert AllSpace(gaps[0]);
      assert s[0] == gaps[0][0];
      var gaps' := [gaps[0][1..]] + gaps[1..];
      assert Separates(gaps', |ws|) by {
        assert forall i :: 0 < i < |gaps'| ==> gaps'[i] == gaps[i];
      }
      if ws == [] {
        assert Interleave(gaps', ws) == gaps[0][1..];
      } else {
        assert gaps'[1..] == gaps[1..];
        assert Interleave(gaps', ws) == gaps[0][1..] + ws[0] + Interleave(gaps[1..], ws[1..]);
        assert s == gaps[0] + ws[0] + Interleave(gaps[1..], ws[1..]);
        assert gaps[0] == [gaps[0][0]] + gaps[0][1..];
      }
      assert Interleave(gaps', ws) == s[1..];
      SplitUnique(s[1..], gaps', ws);
    } else if ws == [] {
      assert s == [];
    } else {
      var rest := Interleave(gaps[1..], ws[1..]);
      assert s == ws[0] + rest;
      assert Separates(gaps[1..], |ws[1..]|) by {
        assert forall i :: 0 <= i < |gaps[1..]| ==> gaps[1..][i] == gaps[i + 1];
      }
      assert rest == [] || IsSpace(rest[0]) by {
        if |ws| == 1 {
          assert rest == gaps[1];
        } else {
          assert rest == gaps[1] + ws[1] + Interleave(gaps[2..], ws[2..]);
          assert gaps[1] != [] && IsSpace(gaps[1][0]);
        }
      }
      TokenEndOfToken(ws[0], rest);
      assert IsToken(ws[0]);
      assert !IsSpace(s[0]);
      assert s[..|ws[0]|] == ws[0];
      assert s[|ws[0]|..] == rest;
      SplitUnique(rest, gaps[1..], ws[1..]);
    }
  }

  /** `" ".join(ws)`. */
  function JoinSpaced(ws: seq<string>): string
    decreases |ws|
  {
    if ws == [] then ""
    else if |ws| == 1 then ws[0]
    else ws[0] + " " + JoinSpaced(ws[1..])
  }

  /** Single spaces between `n` tokens, nothing at the ends, after a given leading gap. */
  function SingleGaps(lead: string, n: nat): (gaps: seq<string>)
    ensures |gaps| == n + 1 && gaps[0] == lead
    decreases n
  {
    if n == 0 then [lead]
    else if n == 1 then [lead, ""]
    else [lead] + SingleGaps(" ", n - 1)
  }

  lemma {:induction false} JoinSpacedInterleaves(lead: string, ws: seq<string>)
    ensures Interleave(SingleGaps(lead, |ws|), ws) == lead + JoinSpaced(ws)
    decreases |ws|
  {
    if ws == [] {
    } else if |ws| == 1 {
      assert SingleGaps(lead, 1) == [lead, ""];
    } else {
      var g := SingleGaps(lead, |ws|);
      assert g[1..] == SingleGaps(" ", |ws| - 1);
      JoinSpacedInterleaves(" ", ws[1..]);
    }
  }

  lemma {:induction false} SingleGapsSeparate(lead: string, n: nat)
    requires AllSpace(lead)
    ensures Separates(SingleGaps(lead, n), n)
    decreases n
  {
    if n > 1 {
      SingleGapsSeparate(" ", n - 1);
      var g := SingleGaps(lead, n);
      assert g[1..] == SingleGaps(" ", n - 1);
      forall i | 0 <= i < |g|
        ensures AllSpace(g[i]) && (0 < i < n ==> g[i] != [])
      {
        if i > 0 {
          assert g[i] == SingleGaps(" ", n - 1)[i - 1];
        }
      }
    }
  }

  /** Round trip: splitting tokens joined by single spaces gives back the tokens. */
  lemma SplitJoinSpaced(ws: seq<string>)
    requires forall i :: 0 <= i < |ws| ==> IsToken(ws[i])
    ensures Split(JoinSpaced(ws)) == ws
  {
    SingleGapsSeparate("", |ws|);
    JoinSpacedInterleaves("", ws);
    assert "" + JoinSpaced(ws) == JoinSpaced(ws);
    SplitUnique(JoinSpaced(ws), SingleGaps("", |ws|), ws);
  }

  /** Whitespace collapse: `s` is its tokens with the runs `Gaps(s)` around them,
      and `" ".join(s.split())` is the same tokens with no run at either end and a
      single space for every inner run; splitting it again gives the same tokens. */
  lemma SplitCollapsesWhitespace(s: string)
    ensures Separates(Gaps(s), |Split(s)|) && s == Interleave(Gaps(s), Split(s))
    ensures JoinSpaced(Split(s)) == Interleave(SingleGaps("", |Split(s)|), Split(s))
    ensures Split(JoinSpaced(Split(s))) == Split(s)
  {
    SplitDecomposes(s);
    JoinSpacedInterleaves("", Split(s));
    assert "" + JoinSpaced(Split(s)) == JoinSpaced(Split(s));
    SplitJoinSpaced(Split(s));
  }

  /** Position of the first `c` in `s`, or |s| when there is none. */
  function IndexOf(s: string, c: char): (k: nat)
    ensures k <= |s|
    ensures k < |s| <==> c in s
    ensures k < |s| ==> s[k] == c
    ensures forall j :: 0 <= j < k ==> s[j] != c
  {
    if s == [] then 0 else if s[0] == c then 0 else 1 + IndexOf(s[1..], c)
  }

  /** `s.split(sep)` with a one-character separator. */
  function SplitOn(s: string, sep: char): (fields: seq<string>)
    ensures |fields| >= 1
    ensures |fields| >= 2 <==> sep in s
    ensures forall i :: 0 <= i < |fields| ==> sep !in fields[i]
    decreases |s|
  {
    if s == [] then [""]
    else
      var rest := SplitOn(s[1..], sep);
      if s[0] == sep then [""] + rest else [[s[0]] + rest[0]] + rest[1..]
  }

  /** `sep.join(fields)` with a one-character separator. */
  function JoinOn(fields: seq<string>, sep: char): string
    requires |fields| >= 1
    decreases |fields|
  {
    if |fields| == 1 then fields[0] else fields[0] + [sep] + JoinOn(fields[1..], sep)
  }

  /** `sep.join(s.split(sep)) == s`. */
  lemma {:induction false} JoinSplitOn(s: string, sep: char)
    ensures JoinOn(SplitOn(s, sep), sep) == s
    decreases |s|
  {
    if s != [] {
      var rest := SplitOn(s[1..], sep);
      JoinSplitOn(s[1..], sep);
      if s[0] == sep {
        assert SplitOn(s, sep)[1..] == rest;
      } else {
        var f := SplitOn(s, sep);
        assert f[0] == [s[0]] + rest[0];
        if |rest| == 1 {
        } else {
          assert f[1..] == rest[1..];
          assert JoinOn(rest, sep) == rest[0] + [sep] + JoinOn(rest[1..], sep);
        }
      }
    }
  }

  /** The first field ends at the first separator, and the remaining fields are
      those of the text after it. */
  lemma {:induction false} SplitOnFirst(s: string, sep: char)
    ensures SplitOn(s, sep)[0] == s[..IndexOf(s, sep)]
    ensures sep in s ==> SplitOn(s, sep)[1..] == SplitOn(s[IndexOf(s, sep) + 1..], sep)
    decreases |s|
  {
    if s != [] && s[0] != sep {
      SplitOnFirst(s[1..], sep);
      assert s[1..][..IndexOf(s[1..], sep)] == s[1..IndexOf(s, sep)];
      assert sep in s <==> sep in s[1..];
      if sep in s {
        assert s[1..][IndexOf(s[1..], sep) + 1..] == s[IndexOf(s, sep) + 1..];
      }
    }
  }

  /** `s.split(sep)[1]` for an `s` holding `sep`: the text after the first
      separator up to the next one, or to the end of `s` when there is no second. */
  lemma SecondField(s: string, sep: char)
    requires sep in s
    ensures |SplitOn(s, sep)| >= 2
    ensures var t := s[IndexOf(s, sep) + 1..];
            SplitOn(s, sep)[1] == t[..IndexOf(t, sep)]
  {
    SplitOnFirst(s, sep);
    var t := s[IndexOf(s, sep) + 1..];
    var fields := SplitOn(s, sep);
    assert fields[1..] == SplitOn(t, sep);
    assert fields[1] == fields[1..][0];
    SplitOnFirst(t, sep);
  }

  /** The first `c` of `p + [c] + t` is the one after `p` when `p` holds none. */
  lemma IndexOfAfter(p: string, c: char, t: string)
    requires c !in p
    ensures IndexOf(p + [c] + t, c) == |p|
  {
    assert (p + [c] + t)[|p|] == c;
    assert forall k :: 0 <= k < |p| ==> (p + [c] + t)[k] == p[k];
  }

  /** `s.startswith(prefix)`. */
  predicate StartsWith(s: string, prefix: string) {
    |prefix| <= |s| && s[..|prefix|] == prefix
  }

  /** `s.startswith(prefix)` holds exactly when `s` is `prefix` followed by the
      rest of `s`; in particular every string starts with its own prefixes. */
  lemma StartsWithPrefix(s: string, prefix: string)
    ensures StartsWith(s, prefix) <==> |prefix| <= |s| && s == prefix + s[|prefix|..]
    ensures StartsWith(prefix + s, prefix)
  {
    if |prefix| <= |s| && s == prefix + s[|prefix|..] {
      assert s[..|prefix|] == prefix;
    }
    assert (prefix + s)[..|prefix|] == prefix;
  }
}
