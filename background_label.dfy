/**
 * The caption of a background in the settings dialog of assets/js/bossfight.js: the file
 * name loses its extension, every run of '-' and '_' becomes one space, and each
 * space-separated word gets an upper-case first letter.
 */
module BackgroundLabel {

  // ----- The extension: `.replace(/\.[^/.]+$/, '')` -----

  /** The regular expression matches at i: a '.' followed by at least one character, none of them '/' or '.', up to the end. */
  ghost predicate ExtensionAt(s: string, i: int)
  {
    0 <= i < |s| - 1 && s[i] == '.' && forall k :: i < k < |s| ==> s[k] != '/' && s[k] != '.'
  }

  /** Length of the longest suffix without '/' or '.'. */
  function TailLen(s: string): (n: nat)
    ensures n <= |s|
    ensures forall k :: |s| - n <= k < |s| ==> s[k] != '/' && s[k] != '.'
    ensures n < |s| ==> s[|s| - n - 1] == '/' || s[|s| - n - 1] == '.'
  {
    if s == [] || s[|s| - 1] == '/' || s[|s| - 1] == '.' then 0
    else 1 + TailLen(s[..|s| - 1])
  }

  /** At most one position can start the match: its '.' is the last '.' of the name. */
  lemma ExtensionAtUnique(s: string, i: int, j: int)
    requires ExtensionAt(s, i) && ExtensionAt(s, j)
    ensures i == j
  {
    assert s[i] == '.' && s[j] == '.';
  }

  /** The name with its extension removed; a name the expression does not match is kept whole. */
  function StripExtension(s: string): (r: string)
    ensures forall i :: ExtensionAt(s, i) ==> r == s[..i]
    ensures (forall i :: !ExtensionAt(s, i)) ==> r == s
  {
    var n := TailLen(s);
    if 0 < n < |s| && s[|s| - n - 1] == '.' then
      assert ExtensionAt(s, |s| - n - 1);
      ExtensionUniqueAll(s, |s| - n - 1);
      s[..|s| - n - 1]
    else
      NoExtension(s);
      s
  }

  lemma ExtensionUniqueAll(s: string, i: int)
    requires ExtensionAt(s, i)
    ensures forall j :: ExtensionAt(s, j) ==> j == i
  {
    forall j | ExtensionAt(s, j) ensures j == i {
      ExtensionAtUnique(s, i, j);
    }
  }

  /** When the suffix without '/' and '.' is empty, the whole name, or follows a '/', nothing matches. */
  lemma NoExtension(s: string)
    requires var n := TailLen(s); !(0 < n < |s| && s[|s| - n - 1] == '.')
    ensures forall i :: !ExtensionAt(s, i)
  {
    var n := TailLen(s);
    forall i | 0 <= i < |s| - 1 && s[i] == '.'
      ensures exists k :: i < k < |s| && (s[k] == '/' || s[k] == '.')
    {
      assert i < |s| - n;
      if n == 0 {
        assert s[|s| - 1] == '/' || s[|s| - 1] == '.';
      } else {
        assert s[|s| - n - 1] == '/';
        assert i != |s| - n - 1;
      }
    }
  }

  // ----- The separators: `.replace(/[-_]+/g, ' ')` -----

  predicate IsSep(c: char)
  {
    c == '-' || c == '_'
  }

  /** `t` with its leading separators dropped. */
  function DropSeps(t: string): (r: string)
    ensures |r| <= |t|
    ensures r == [] || !IsSep(r[0])
    ensures forall k :: 0 <= k < |t| - |r| ==> IsSep(t[k])
  {
    if t != [] && IsSep(t[0]) then DropSeps(t[1..]) else t
  }

  /** Every maximal run of '-' and '_' replaced by a single space. */
  function CollapseSeparators(s: string): (r: string)
    ensures |r| <= |s|
    ensures forall k :: 0 <= k < |r| ==> !IsSep(r[k])
    decreases |s|
  {
    if s == [] then []
    else if IsSep(s[0]) then [' '] + CollapseSeparators(DropSeps(s[1..]))
    else [s[0]] + CollapseSeparators(s[1..])
  }

  /** A name without separators is left as it is. */
  lemma {:induction false} CollapseWithoutSeparators(s: string)
    requires forall k :: 0 <= k < |s| ==> !IsSep(s[k])
    ensures CollapseSeparators(s) == s
    decreases |s|
  {
    if s != [] {
      CollapseWithoutSeparators(s[1..]);
    }
  }

  /** A run of separators between two words becomes exactly one space. */
  lemma {:induction false} CollapseRun(w: string, run: string, rest: string)
    requires forall k :: 0 <= k < |w| ==> !IsSep(w[k])
    requires |run| > 0 && forall k :: 0 <= k < |run| ==> IsSep(run[k])
    requires rest == [] || !IsSep(rest[0])
    ensures CollapseSeparators(w + run + rest) == w + " " + CollapseSeparators(rest)
    decreases |w|
  {
    if w == [] {
      assert w + run + rest == run + rest;
      DropRun(run[1..], rest);
      assert (run + rest)[1..] == run[1..] + rest;
    } else {
      CollapseRun(w[1..], run, rest);
      assert (w + run + rest)[1..] == w[1..] + run + rest;
    }
  }

  lemma {:induction false} DropRun(run: string, rest: string)
    requires forall k :: 0 <= k < |run| ==> IsSep(run[k])
    requires rest == [] || !IsSep(rest[0])
    ensures DropSeps(run + rest) == rest
    decreases |run|
  {
    if run == [] {
      assert run + rest == rest;
    } else {
      var t := run + rest;
      assert t[0] == run[0] && IsSep(run[0]);
      assert t[1..] == run[1..] + rest;
      DropRun(run[1..], rest);
    }
  }

  // ----- The capitals: `.split(' ').map(w => w.charAt(0).toUpperCase() + w.slice(1)).join(' ')` -----

  /** `toUpperCase` on the ASCII letters a to z; every other character is kept. */
  function Upper(c: char): (u: char)
    ensures 'a' <= c <= 'z' ==> 'A' <= u <= 'Z' && u as int == c as int - 32
    ensures !('a' <= c <= 'z') ==> u == c
  {
    if 'a' <= c <= 'z' then (c as int - 32) as char else c
  }

  /** `w.charAt(0).toUpperCase() + w.slice(1)`; `charAt(0)` of "" is "". */
  function CapitalizeWord(w: string): (r: string)
    ensures |r| == |w|
    ensures |w| > 0 ==> r[0] == Upper(w[0]) && r[1..] == w[1..]
  {
    if w == [] then [] else [Upper(w[0])] + w[1..]
  }

  /** Index of the first space, or -1. */
  function IndexOf(s: string, c: char): (i: int)
    ensures -1 <= i < |s|
    ensures i == -1 ==> forall k :: 0 <= k < |s| ==> s[k] != c
    ensures i >= 0 ==> s[i] == c && forall k :: 0 <= k < i ==> s[k] != c
  {
    if s == [] then -1
    else if s[0] == c then 0
    else var j := IndexOf(s[1..], c); if j == -1 then -1 else 1 + j
  }

  /** `s.split(' ')`: always at least one piece; the pieces hold no space. */
  function SplitOnSpace(s: string): (ws: seq<string>)
    ensures |ws| > 0
    ensures forall j, k :: 0 <= j < |ws| && 0 <= k < |ws[j]| ==> ws[j][k] != ' '
    decreases |s|
  {
    var i := IndexOf(s, ' ');
    if i == -1 then [s] else [s[..i]] + SplitOnSpace(s[i + 1..])
  }

  /** `ws.join(' ')`. */
  function JoinWithSpace(ws: seq<string>): string
  {
    if ws == [] then [] else if |ws| == 1 then ws[0] else ws[0] + " " + JoinWithSpace(ws[1..])
  }

  /** Joining the pieces of a split gives the text back. */
  lemma {:induction false} JoinSplit(s: string)
    ensures JoinWithSpace(SplitOnSpace(s)) == s
    decreases |s|
  {
    var i := IndexOf(s, ' ');
    if i != -1 {
      JoinSplit(s[i + 1..]);
      assert s == s[..i] + " " + s[i + 1..];
    }
  }

  function CapitalizeAll(ws: seq<string>): (rs: seq<string>)
    ensures |rs| == |ws|
    ensures forall k :: 0 <= k < |ws| ==> rs[k] == CapitalizeWord(ws[k])
  {
    seq(|ws|, k requires 0 <= k < |ws| => CapitalizeWord(ws[k]))
  }

  function CapitalizeWords(s: string): string
  {
    JoinWithSpace(CapitalizeAll(SplitOnSpace(s)))
  }

  /** The first character and every character after a space are upper-cased, all others kept. */
  ghost predicate CapitalizedFrom(s: string, r: string)
  {
    |r| == |s| && forall k {:trigger r[k]} :: 0 <= k < |s| ==> r[k] == if k == 0 || s[k - 1] == ' ' then Upper(s[k]) else s[k]
  }

  /** A text with a space: the first word capitalised, the space, then the rest capitalised word by word. */
  lemma CapitalizeWordsStep(s: string)
    requires IndexOf(s, ' ') != -1
    ensures var i := IndexOf(s, ' ');
      CapitalizeWords(s) == CapitalizeWord(s[..i]) + " " + CapitalizeWords(s[i + 1..])
  {
    var i := IndexOf(s, ' ');
    var w, rest := s[..i], SplitOnSpace(s[i + 1..]);
    assert SplitOnSpace(s) == [w] + rest;
    CapitalizeAllCons(w, rest);
    JoinCons(CapitalizeWord(w), CapitalizeAll(rest));
  }

  lemma CapitalizeAllCons(w: string, ws: seq<string>)
    ensures CapitalizeAll([w] + ws) == [CapitalizeWord(w)] + CapitalizeAll(ws)
  {
  }

  lemma JoinCons(w: string, rest: seq<string>)
    requires rest != []
    ensures JoinWithSpace([w] + rest) == w + " " + JoinWithSpace(rest)
  {
    assert ([w] + rest)[1..] == rest;
  }

  /** Putting a capitalised word and a capitalised text together around a space. */
  lemma CapitalizedAroundSpace(w: string, rest: string, r2: string)
    requires forall k :: 0 <= k < |w| ==> w[k] != ' '
    requires CapitalizedFrom(rest, r2)
    ensures CapitalizedFrom(w + " " + rest, CapitalizeWord(w) + " " + r2)
  {
    var s, r := w + " " + rest, CapitalizeWord(w) + " " + r2;
    var i := |w|;
    forall k | 0 <= k < |s|
      ensures r[k] == if k == 0 || s[k - 1] == ' ' then Upper(s[k]) else s[k]
    {
      if k < i {
        assert r[k] == CapitalizeWord(w)[k] && s[k] == w[k];
        if k > 0 {
          assert s[k - 1] == w[k - 1];
          assert CapitalizeWord(w)[k] == CapitalizeWord(w)[1..][k - 1] == w[k];
        }
      } else if k == i {
        assert r[k] == ' ' == s[k];
        if k > 0 { assert s[k - 1] == w[k - 1]; }
      } else {
        var j := k - i - 1;
        assert r[k] == r2[j] && s[k] == rest[j];
        assert r2[j] == if j == 0 || rest[j - 1] == ' ' then Upper(rest[j]) else rest[j];
        if j > 0 { assert s[k - 1] == rest[j - 1]; }
      }
    }
  }

  /** The split-map-join pipeline is the same as capitalising the first character and each one after a space. */
  lemma {:induction false} CapitalizeWordsPointwise(s: string)
    ensures CapitalizedFrom(s, CapitalizeWords(s))
    decreases |s|
  {
    var i := IndexOf(s, ' ');
    if i == -1 {
      assert SplitOnSpace(s) == [s];
      assert CapitalizeWords(s) == CapitalizeWord(s);
      CapitalizedOneWord(s);
    } else {
      CapitalizeWordsPointwise(s[i + 1..]);
      CapitalizedFirstWord(s);
    }
  }

  /** A single word: only its first character changes. */
  lemma CapitalizedOneWord(w: string)
    requires forall k :: 0 <= k < |w| ==> w[k] != ' '
    ensures CapitalizedFrom(w, CapitalizeWord(w))
  {
    var r := CapitalizeWord(w);
    forall k | 0 <= k < |w|
      ensures r[k] == if k == 0 || w[k - 1] == ' ' then Upper(w[k]) else w[k]
    {
      if k > 0 {
        assert r[k] == r[1..][k - 1];
      }
    }
  }

  /** A text with a space is capitalised correctly when the text after its first space is. */
  lemma CapitalizedFirstWord(s: string)
    requires IndexOf(s, ' ') != -1
    requires var i := IndexOf(s, ' '); CapitalizedFrom(s[i + 1..], CapitalizeWords(s[i + 1..]))
    ensures CapitalizedFrom(s, CapitalizeWords(s))
  {
    var i := IndexOf(s, ' ');
    var w, rest := s[..i], s[i + 1..];
    CapitalizedAroundSpace(w, rest, CapitalizeWords(rest));
    SplitAround(s, i);
    CapitalizeWordsStep(s);
  }

  lemma SplitAround(s: string, i: nat)
    requires i < |s| && s[i] == ' '
    ensures s == s[..i] + " " + s[i + 1..]
  {
  }

  /** Capitalising turns no character into a separator. */
  lemma CapitalizedKeepsLetters(s: string, r: string)
    requires CapitalizedFrom(s, r) && forall k :: 0 <= k < |s| ==> !IsSep(s[k])
    ensures forall k :: 0 <= k < |r| ==> !IsSep(r[k])
  {
    forall k | 0 <= k < |r| ensures !IsSep(r[k]) {
      assert r[k] == if k == 0 || s[k - 1] == ' ' then Upper(s[k]) else s[k];
    }
  }

  /** The caption shown for background file `name`. */
  function Label(name: string): (r: string)
    ensures CapitalizedFrom(CollapseSeparators(StripExtension(name)), r)
    ensures forall k :: 0 <= k < |r| ==> !IsSep(r[k])
  {
    var base := CollapseSeparators(StripExtension(name));
    CapitalizeWordsPointwise(base);
    CapitalizedKeepsLetters(base, CapitalizeWords(base));
    CapitalizeWords(base)
  }

}
