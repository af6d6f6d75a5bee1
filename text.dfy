/** Characters, whitespace and word splitting shared by the Python and JavaScript models. */
module Text {
  datatype Option<T> = None | Some(value: T)

  /** The outcome of an operation that may raise: the value, or the error it raises. */
  datatype Result<T> = Ok(value: T) | Err(error: string)

  /** Python's `str.isspace`, which `\s`, `str.split()` and `str.strip()` all use. */
  predicate PySpace(c: char) {
    var n := c as int;
    n == 0x20 || (0x09 <= n <= 0x0D) || (0x1C <= n <= 0x1F) || n == 0x85 || n == 0xA0
    || n == 0x1680 || (0x2000 <= n <= 0x200A) || n == 0x2028 || n == 0x2029
    || n == 0x202F || n == 0x205F || n == 0x3000
  }

  /** JavaScript WhiteSpace and LineTerminator, used by `String.prototype.trim` and `\s`. */
  predicate JsSpace(c: char) {
    var n := c as int;
    n == 0x20 || (0x09 <= n <= 0x0D) || n == 0xA0 || n == 0x1680
    || (0x2000 <= n <= 0x200A) || n == 0x2028 || n == 0x2029 || n == 0x202F
    || n == 0x205F || n == 0x3000 || n == 0xFEFF
  }

  predicate IsDigit(c: char) { '0' <= c <= '9' }
  predicate IsUpper(c: char) { 'A' <= c <= 'Z' }
  predicate IsLower(c: char) { 'a' <= c <= 'z' }
  predicate IsAsciiLetter(c: char) { IsUpper(c) || IsLower(c) }
  /** A precomposed Hangul syllable, the range `가-힣` (U+AC00..U+D7A3). */
  predicate IsHangul(c: char) { '\U{AC00}' <= c <= '\U{D7A3}' }

  function ToLowerAscii(c: char): (r: char)
    ensures IsUpper(c) ==> IsLower(r)
    ensures !IsUpper(c) ==> r == c
  {
    if IsUpper(c) then (c as int + 32) as char else c
  }

  function ToUpperAscii(c: char): (r: char)
    ensures IsLower(c) ==> IsUpper(r)
    ensures !IsLower(c) ==> r == c
  {
    if IsLower(c) then (c as int - 32) as char else c
  }

  function LowerAscii(s: string): (r: string)
    ensures |r| == |s|
    ensures forall i :: 0 <= i < |s| ==> r[i] == ToLowerAscii(s[i])
  {
    if s == [] then [] else [ToLowerAscii(s[0])] + LowerAscii(s[1..])
  }

  function UpperAscii(s: string): (r: string)
    ensures |r| == |s|
    ensures forall i :: 0 <= i < |s| ==> r[i] == ToUpperAscii(s[i])
  {
    if s == [] then [] else [ToUpperAscii(s[0])] + UpperAscii(s[1..])
  }

  predicate AllChars(s: string, p: char -> bool) {
    forall i :: 0 <= i < |s| ==> p(s[i])
  }

  predicate StartsWith(s: string, prefix: string) {
    |prefix| <= |s| && s[..|prefix|] == prefix
  }

  predicate ContainsAt(s: string, t: string, i: int) {
    0 <= i && i + |t| <= |s| && s[i..i + |t|] == t
  }

  /** JavaScript `includes` / Python `in` on strings. */
  predicate Contains(s: string, t: string) {
    exists i :: 0 <= i <= |s| - |t| && ContainsAt(s, t, i)
  }

  /** `xs[:n]` for a count that is never negative in use: the first `n` elements, or all of them. */
  function Take<T>(xs: seq<T>, n: int): (r: seq<T>)
    ensures |r| == if n < 0 then 0 else if n < |xs| then n else |xs|
    ensures r <= xs
  {
    if n < 0 then [] else if n < |xs| then xs[..n] else xs
  }

  function DropLeading(s: string, ws: char -> bool): (r: string)
    ensures |r| <= |s| && r == s[|s| - |r|..]
    ensures r == [] || !ws(r[0])
    ensures forall i :: 0 <= i < |s| - |r| ==> ws(s[i])
  {
    if s != [] && ws(s[0]) then DropLeading(s[1..], ws) else s
  }

  function DropTrailing(s: string, ws: char -> bool): (r: string)
    ensures |r| <= |s| && r == s[..|r|]
    ensures r == [] || !ws(r[|r| - 1])
    ensures forall i :: |r| <= i < |s| ==> ws(s[i])
  {
    if s != [] && ws(s[|s| - 1]) then DropTrailing(s[..|s| - 1], ws) else s
  }

  /** `str.strip()` or `String.prototype.trim()`, depending on the whitespace set. */
  function Strip(s: string, ws: char -> bool): (r: string)
    ensures |r| <= |s|
    ensures r == [] || (!ws(r[0]) && !ws(r[|r| - 1]))
    ensures (forall i :: 0 <= i < |s| ==> ws(s[i])) <==> r == []
  {
    if s != [] && ws(s[0]) then Strip(s[1..], ws)
    else if s != [] && ws(s[|s| - 1]) then Strip(s[..|s| - 1], ws)
    else s
  }

  function PyStrip(s: string): string { Strip(s, PySpace) }
  function JsTrim(s: string): string { Strip(s, JsSpace) }

  /** Whitespace-separated words, in order: `str.split()` with no separator. */
  function Words(s: string, ws: char -> bool): (r: seq<string>)
    ensures Wordlike(r, ws)
    decreases |s|
  {
    var t := DropLeading(s, ws);
    if t == [] then []
    else
      var n := WordLength(t, ws);
      LeadingWord(t, ws);
      var rest := Words(t[n..], ws);
      ConsWordlike(t[..n], rest, ws);
      [t[..n]] + rest
  }

  lemma LeadingWord(t: string, ws: char -> bool)
    requires t != [] && !ws(t[0])
    ensures IsWord(t[..WordLength(t, ws)], ws)
  {
    var w := t[..WordLength(t, ws)];
    forall i | 0 <= i < |w| ensures !ws(w[i]) { assert w[i] == t[i]; }
  }

  lemma ConsWordlike(w: string, rest: seq<string>, ws: char -> bool)
    requires IsWord(w, ws) && Wordlike(rest, ws)
    ensures Wordlike([w] + rest, ws)
  {
    forall k | 0 <= k < |[w] + rest| ensures IsWord(([w] + rest)[k], ws) {
      if k > 0 { assert ([w] + rest)[k] == rest[k - 1]; }
    }
  }

  /** Length of the run of non-whitespace characters that starts `s`. */
  function WordLength(s: string, ws: char -> bool): (n: nat)
    ensures n <= |s|
    ensures forall i :: 0 <= i < n ==> !ws(s[i])
    ensures n < |s| ==> ws(s[n])
  {
    if s == [] || ws(s[0]) then 0 else 1 + WordLength(s[1..], ws)
  }

  /** `sep.join(words)`. */
  function Join(words: seq<string>, sep: string): (r: string)
  {
    if words == [] then ""
    else if |words| == 1 then words[0]
    else words[0] + sep + Join(words[1..], sep)
  }

  /** A string with no whitespace except single inner spaces. */
  predicate Collapsed(s: string, ws: char -> bool) {
    ws(' ')
    && (s != [] ==> s[0] != ' ' && s[|s| - 1] != ' ')
    && (forall i :: 0 <= i < |s| ==> (ws(s[i]) ==> s[i] == ' '))
    && (forall i :: 0 <= i < |s| - 1 ==> !(s[i] == ' ' && s[i + 1] == ' '))
  }

  /** `" ".join(s.split())`, equivalently `re.sub(r"\s+", " ", s).strip()`. */
  function Collapse(s: string, ws: char -> bool): string {
    Join(Words(s, ws), " ")
  }

  function PyCollapse(s: string): string { Collapse(s, PySpace) }

  /** A word: non-empty, without whitespace. */
  predicate IsWord(w: string, ws: char -> bool) {
    w != [] && forall i :: 0 <= i < |w| ==> !ws(w[i])
  }

  predicate Wordlike(words: seq<string>, ws: char -> bool) {
    forall k :: 0 <= k < |words| ==> IsWord(words[k], ws)
  }

  lemma {:induction false} JoinCollapsed(words: seq<string>, ws: char -> bool)
    requires ws(' ') && Wordlike(words, ws)
    ensures Collapsed(Join(words, " "), ws)
  {
    if |words| > 1 {
      JoinCollapsed(words[1..], ws);
      var rest := Join(words[1..], " ");
      var r := words[0] + " " + rest;
      assert r == Join(words, " ");
      assert rest != [] by { assert words[1] != []; JoinNonEmpty(words[1..]); }
      forall i | 0 <= i < |r| - 1
        ensures !(r[i] == ' ' && r[i + 1] == ' ')
      {
        if i + 1 < |words[0]| {
          assert r[i] == words[0][i];
        } else if i + 1 == |words[0]| {
          assert r[i] == words[0][i];
          assert !ws(words[0][i]);
        } else if i == |words[0]| {
          assert r[i + 1] == rest[0];
        } else {
          assert r[i] == rest[i - |words[0]| - 1];
          assert r[i + 1] == rest[i + 1 - |words[0]| - 1];
        }
      }
      forall i | 0 <= i < |r|
        ensures ws(r[i]) ==> r[i] == ' '
      {
        if i < |words[0]| {
          assert r[i] == words[0][i];
        } else if i > |words[0]| {
          assert r[i] == rest[i - |words[0]| - 1];
        }
      }
      assert r[0] == words[0][0];
    } else if |words| == 1 {
      assert IsWord(words[0], ws);
    }
  }

  lemma {:induction false} JoinNonEmpty(words: seq<string>)
    requires |words| > 0 && words[0] != []
    ensures Join(words, " ") != []
  {
  }

  lemma WordLengthAll(s: string, ws: char -> bool)
    requires IsWord(s, ws)
    ensures WordLength(s, ws) == |s|
  {
  }

  lemma {:induction false} WordsOfJoin(words: seq<string>, ws: char -> bool)
    requires ws(' ') && Wordlike(words, ws)
    ensures Words(Join(words, " "), ws) == words
  {
    if |words| == 1 {
      WordsConsWord(words[0], [], ws);
      assert words[0] + [] == words[0];
    } else if |words| > 1 {
      var w := words[0];
      var rest := Join(words[1..], " ");
      assert Wordlike(words[1..], ws);
      calc {
        Words(Join(words, " "), ws);
        == { assert Join(words, " ") == w + (" " + rest); }
        Words(w + (" " + rest), ws);
        == { WordsConsWord(w, " " + rest, ws); }
        [w] + Words(" " + rest, ws);
        == { WordsSkip(" " + rest, ws); assert (" " + rest)[1..] == rest; }
        [w] + Words(rest, ws);
        == { WordsOfJoin(words[1..], ws); }
        [w] + words[1..];
      }
    }
  }

  lemma WordsConsWord(w: string, tail: string, ws: char -> bool)
    requires IsWord(w, ws) && (tail == [] || ws(tail[0]))
    ensures Words(w + tail, ws) == [w] + Words(tail, ws)
  {
    var s := w + tail;
    assert DropLeading(s, ws) == s;
    WordLengthPrefix(w, tail, ws);
    assert s[..|w|] == w;
    assert s[|w|..] == tail;
  }

  lemma WordsSkip(s: string, ws: char -> bool)
    requires s != [] && ws(s[0])
    ensures Words(s, ws) == Words(s[1..], ws)
  {
    assert DropLeading(s, ws) == DropLeading(s[1..], ws);
  }

  lemma {:induction false} WordLengthPrefix(w: string, t: string, ws: char -> bool)
    requires (w == [] || IsWord(w, ws)) && (t == [] || ws(t[0]))
    ensures WordLength(w + t, ws) == |w|
  {
    if w != [] {
      assert (w + t)[1..] == w[1..] + t;
      WordLengthPrefix(w[1..], t, ws);
    } else {
      assert w + t == t;
    }
  }

  /** The result of collapsing is collapsed and collapsing is idempotent. */
  lemma CollapseProperties(s: string, ws: char -> bool)
    requires ws(' ')
    ensures Collapsed(Collapse(s, ws), ws)
    ensures Collapse(Collapse(s, ws), ws) == Collapse(s, ws)
  {
    JoinCollapsed(Words(s, ws), ws);
    WordsOfJoin(Words(s, ws), ws);
  }

  /** Every character of a joined string is a separator space or comes from a word. */
  lemma {:induction false} JoinChars(words: seq<string>, p: char -> bool)
    requires p(' ') && forall k :: 0 <= k < |words| ==> AllChars(words[k], p)
    ensures AllChars(Join(words, " "), p)
  {
    if |words| > 1 {
      JoinChars(words[1..], p);
      var r := words[0] + " " + Join(words[1..], " ");
      assert r == Join(words, " ");
      forall i | 0 <= i < |r| ensures p(r[i]) {
        if i < |words[0]| { assert r[i] == words[0][i]; }
        else if i > |words[0]| { assert r[i] == Join(words[1..], " ")[i - |words[0]| - 1]; }
      }
    }
  }

  /** Every character of a word of `s` is a character of `s`. */
  lemma {:induction false} WordsChars(s: string, ws: char -> bool, p: char -> bool)
    requires AllChars(s, p)
    ensures forall k :: 0 <= k < |Words(s, ws)| ==> AllChars(Words(s, ws)[k], p)
    decreases |s|
  {
    var t := DropLeading(s, ws);
    if t != [] {
      var n := WordLength(t, ws);
      AllCharsSlice(s, |s| - |t|, |s|, p);
      AllCharsSlice(t, n, |t|, p);
      AllCharsSlice(t, 0, n, p);
      WordsChars(t[n..], ws, p);
      WordsUnfold(s, ws);
      ConsAllChars(t[..n], Words(t[n..], ws), p);
    }
  }

  lemma WordsUnfold(s: string, ws: char -> bool)
    requires DropLeading(s, ws) != []
    ensures var t := DropLeading(s, ws);
      Words(s, ws) == [t[..WordLength(t, ws)]] + Words(t[WordLength(t, ws)..], ws)
  {
  }

  lemma ConsAllChars(w: string, rest: seq<string>, p: char -> bool)
    requires AllChars(w, p) && forall k :: 0 <= k < |rest| ==> AllChars(rest[k], p)
    ensures forall k :: 0 <= k < |[w] + rest| ==> AllChars(([w] + rest)[k], p)
  {
    forall k | 0 <= k < |[w] + rest| ensures AllChars(([w] + rest)[k], p) {
      if k > 0 { assert ([w] + rest)[k] == rest[k - 1]; }
    }
  }

  lemma AllCharsSlice(s: string, i: nat, j: nat, p: char -> bool)
    requires i <= j <= |s| && AllChars(s, p)
    ensures AllChars(s[i..j], p)
  {
    forall k | 0 <= k < j - i ensures p(s[i..j][k]) { assert s[i..j][k] == s[i + k]; }
  }

  /** Collapsing keeps every character class that contains the space. */
  lemma CollapseChars(s: string, ws: char -> bool, p: char -> bool)
    requires p(' ') && AllChars(s, p)
    ensures AllChars(Collapse(s, ws), p)
  {
    WordsChars(s, ws, p);
    JoinChars(Words(s, ws), p);
  }

  /** Splitting on a single literal space, as `text.split(" ")` does (empty pieces kept). */
  function SplitOnSpace(s: string): (r: seq<string>)
    ensures |r| >= 1
    ensures forall k :: 0 <= k < |r| ==> ' ' !in r[k]
    ensures Join(r, " ") == s
    decreases |s|
  {
    var n := SpaceFree(s);
    if n == |s| then [s]
    else
      var rest := SplitOnSpace(s[n + 1..]);
      assert s == s[..n] + " " + s[n + 1..];
      [s[..n]] + rest
  }

  function SpaceFree(s: string): (n: nat)
    ensures n <= |s| && ' ' !in s[..n] && (n < |s| ==> s[n] == ' ')
  {
    if s == [] || s[0] == ' ' then 0
    else
      var m := SpaceFree(s[1..]);
      assert s[..m + 1] == [s[0]] + s[1..][..m];
      m + 1
  }

  /** Where the first `c` stands, or `|s|` when there is none. */
  function CharFree(s: string, c: char): (n: nat)
    ensures n <= |s| && c !in s[..n] && (n < |s| ==> s[n] == c)
  {
    if s == [] || s[0] == c then 0
    else
      var m := CharFree(s[1..], c);
      assert s[..m + 1] == [s[0]] + s[1..][..m];
      m + 1
  }

  /** `s.split(c)` for a one-character separator: the pieces between the separators. */
  function SplitOn(s: string, c: char): (r: seq<string>)
    ensures |r| >= 1 && forall k :: 0 <= k < |r| ==> c !in r[k]
    ensures Join(r, [c]) == s
    decreases |s|
  {
    var n := CharFree(s, c);
    if n == |s| then [s]
    else
      var rest := SplitOn(s[n + 1..], c);
      assert s == s[..n] + [c] + s[n + 1..];
      [s[..n]] + rest
  }

  /** Splitting pieces joined by a separator none of them holds gives them back. */
  lemma {:induction false} SplitOnJoin(pieces: seq<string>, c: char)
    requires |pieces| >= 1 && forall k :: 0 <= k < |pieces| ==> c !in pieces[k]
    ensures SplitOn(Join(pieces, [c]), c) == pieces
  {
    var s := Join(pieces, [c]);
    var p := pieces[0];
    if |pieces| == 1 {
      assert s[..|p|] == p;
    } else {
      var rest := Join(pieces[1..], [c]);
      assert s == p + [c] + rest;
      assert s[..|p|] == p && s[|p|] == c;
      assert CharFree(s, c) == |p|;
      assert s[|p| + 1..] == rest;
      SplitOnJoin(pieces[1..], c);
    }
  }

  /** Keep the elements that satisfy `p`, in order. */
  function Filter<T>(xs: seq<T>, p: T -> bool): (r: seq<T>)
    ensures |r| <= |xs|
    ensures forall k :: 0 <= k < |r| ==> p(r[k]) && r[k] in xs
    ensures forall x :: x in xs && p(x) ==> x in r
  {
    if xs == [] then []
    else if p(xs[0]) then [xs[0]] + Filter(xs[1..], p)
    else Filter(xs[1..], p)
  }

  /** A property of every character survives stripping: the result is a slice of the input. */
  lemma {:induction false} StripAllChars(s: string, ws: char -> bool, p: char -> bool)
    requires AllChars(s, p)
    ensures AllChars(Strip(s, ws), p)
  {
    if s != [] && ws(s[0]) {
      StripAllChars(s[1..], ws, p);
    } else if s != [] && ws(s[|s| - 1]) {
      StripAllChars(s[..|s| - 1], ws, p);
    }
  }

  /** Stripping a string whose ends are already non-whitespace changes nothing. */
  lemma StripTrimmed(s: string, ws: char -> bool)
    requires s == [] || (!ws(s[0]) && !ws(s[|s| - 1]))
    ensures Strip(s, ws) == s
  {
  }

  lemma StripIdempotent(s: string, ws: char -> bool)
    ensures Strip(Strip(s, ws), ws) == Strip(s, ws)
  {
    StripTrimmed(Strip(s, ws), ws);
  }

  /** Every piece of `split(" ")` is a substring, so it keeps the characters' class. */
  lemma {:induction false} SplitOnSpaceChars(s: string, p: char -> bool)
    requires AllChars(s, p)
    ensures forall k :: 0 <= k < |SplitOnSpace(s)| ==> AllChars(SplitOnSpace(s)[k], p)
    decreases |s|
  {
    var n := SpaceFree(s);
    if n < |s| {
      SplitOnSpaceChars(s[n + 1..], p);
      assert AllChars(s[..n], p) by {
        forall i | 0 <= i < n ensures p(s[..n][i]) { assert s[..n][i] == s[i]; }
      }
    }
  }

  /** Concatenation of a sequence of batches, in order. */
  function Flatten<T>(xss: seq<seq<T>>): (r: seq<T>)
  {
    if xss == [] then [] else Flatten(xss[..|xss| - 1]) + xss[|xss| - 1]
  }

  lemma FlattenAppend<T>(xss: seq<seq<T>>, xs: seq<T>)
    ensures Flatten(xss + [xs]) == Flatten(xss) + xs
  {
    assert (xss + [xs])[..|xss|] == xss;
  }

  /** Consecutive slices of `size`, the last one possibly shorter: how batches are cut. */
  function Chunks<T>(xs: seq<T>, size: nat): (r: seq<seq<T>>)
    requires size > 0
    decreases |xs|
  {
    if xs == [] then []
    else if |xs| <= size then [xs]
    else [xs[..size]] + Chunks(xs[size..], size)
  }

  lemma {:induction false} FlattenCons<T>(x: seq<T>, xss: seq<seq<T>>)
    ensures Flatten([x] + xss) == x + Flatten(xss)
    decreases |xss|
  {
    if xss != [] {
      var n := |xss| - 1;
      FlattenCons(x, xss[..n]);
      assert ([x] + xss)[..n + 1] == [x] + xss[..n];
    }
  }

  /**
   * The chunks concatenate back to the input; each one is non-empty and at most `size`
   * long, and all but the last have exactly `size` elements.
   */
  lemma {:induction false} ChunksProperties<T>(xs: seq<T>, size: nat)
    requires size > 0
    ensures Flatten(Chunks(xs, size)) == xs
    ensures forall k :: 0 <= k < |Chunks(xs, size)| ==> 0 < |Chunks(xs, size)[k]| <= size
    ensures forall k :: 0 <= k < |Chunks(xs, size)| - 1 ==> |Chunks(xs, size)[k]| == size
    decreases |xs|
  {
    if |xs| > size {
      var rest := Chunks(xs[size..], size);
      ChunksProperties(xs[size..], size);
      FlattenCons(xs[..size], rest);
      assert xs[..size] + xs[size..] == xs;
    } else if xs != [] {
      assert Flatten([xs]) == Flatten([xs][..0]) + xs;
    }
  }

  /** Full batches followed by a shorter remainder are the chunks of their concatenation. */
  lemma {:induction false} ChunksOfBatches<T>(batches: seq<seq<T>>, rest: seq<T>, size: nat)
    requires size > 0 && |rest| < size
    requires forall k :: 0 <= k < |batches| ==> |batches[k]| == size
    ensures Chunks(Flatten(batches) + rest, size) == batches + (if rest == [] then [] else [rest])
    decreases |batches|
  {
    if batches == [] {
      assert Flatten(batches) + rest == rest;
    } else {
      var tail := batches[1..];
      assert batches == [batches[0]] + tail;
      FlattenCons(batches[0], tail);
      ChunksOfBatches(tail, rest, size);
      var xs := Flatten(batches) + rest;
      assert xs == batches[0] + (Flatten(tail) + rest);
      if Flatten(tail) + rest == [] {
        assert xs == batches[0];
      } else {
        assert xs[..size] == batches[0];
        assert xs[size..] == Flatten(tail) + rest;
      }
    }
  }

  /** The first occurrence of each element, in order. */
  function Dedup<T(==)>(xs: seq<T>): (r: seq<T>)
  {
    if xs == [] then []
    else
      var d := Dedup(xs[..|xs| - 1]);
      if xs[|xs| - 1] in d then d else d + [xs[|xs| - 1]]
  }

  /** The index of the first occurrence of `x`. */
  function FirstIndex<T(==)>(xs: seq<T>, x: T): (i: nat)
    requires x in xs
    ensures i < |xs| && xs[i] == x && x !in xs[..i]
  {
    if xs[0] == x then 0 else 1 + FirstIndex(xs[1..], x)
  }

  lemma FirstIndexOfPrefix<T>(xs: seq<T>, n: nat, x: T)
    requires n <= |xs| && x in xs[..n]
    ensures FirstIndex(xs, x) == FirstIndex(xs[..n], x)
  {
    var i, j := FirstIndex(xs, x), FirstIndex(xs[..n], x);
    assert xs[j] == x by { assert xs[..n][j] == xs[j]; }
    forall k | 0 <= k < i ensures xs[k] != x { assert xs[..i][k] == xs[k]; }
    forall k | 0 <= k < j ensures xs[k] != x { assert xs[..n][..j][k] == xs[k]; }
  }

  /**
   * Order-preserving de-duplication, as `list(dict.fromkeys(xs))` or a `seen` set: no
   * element twice, exactly the elements of `xs`, in the order of their first occurrences.
   */
  lemma {:induction false} DedupProperties<T>(xs: seq<T>)
    ensures forall i, j :: 0 <= i < j < |Dedup(xs)| ==> Dedup(xs)[i] != Dedup(xs)[j]
    ensures forall x :: x in Dedup(xs) <==> x in xs
    ensures forall i, j :: 0 <= i < j < |Dedup(xs)| ==> FirstIndex(xs, Dedup(xs)[i]) < FirstIndex(xs, Dedup(xs)[j])
  {
    if xs != [] {
      var n := |xs| - 1;
      var init := xs[..n];
      DedupProperties(init);
      var d := Dedup(init);
      assert xs == init + [xs[n]];
      forall x | x in init ensures FirstIndex(xs, x) == FirstIndex(init, x) {
        FirstIndexOfPrefix(xs, n, x);
      }
      if xs[n] !in d {
        assert FirstIndex(xs, xs[n]) == n;
      }
    }
  }

  /** A sequence without repeats is its own de-duplication. */
  lemma {:induction false} DedupOfDistinct<T>(xs: seq<T>)
    requires forall i, j :: 0 <= i < j < |xs| ==> xs[i] != xs[j]
    ensures Dedup(xs) == xs
  {
    if xs != [] {
      var n := |xs| - 1;
      DedupOfDistinct(xs[..n]);
      assert xs[n] !in xs[..n] by {
        forall i | 0 <= i < n ensures xs[..n][i] != xs[n] { assert xs[..n][i] == xs[i]; }
      }
      assert xs[..n] + [xs[n]] == xs;
    }
  }

  lemma DedupStep<T>(xs: seq<T>, y: T)
    ensures Dedup(xs + [y]) == if y in xs then Dedup(xs) else Dedup(xs) + [y]
  {
    assert (xs + [y])[..|xs|] == xs;
    DedupProperties(xs);
  }

  /** The keys of the elements, in order. */
  function KeysOf<T, K>(xs: seq<T>, key: T -> K): (r: seq<K>)
    ensures |r| == |xs| && forall k :: 0 <= k < |xs| ==> r[k] == key(xs[k])
  {
    seq(|xs|, k requires 0 <= k < |xs| => key(xs[k]))
  }

  /** The first element for each key, in the order the keys first appear: a loop with a `seen` set. */
  function FirstPerKey<T, K(==)>(xs: seq<T>, key: T -> K): seq<T> {
    if xs == [] then []
    else
      var n := |xs| - 1;
      var kept := FirstPerKey(xs[..n], key);
      if key(xs[n]) in KeysOf(kept, key) then kept else kept + [xs[n]]
  }

  lemma FirstPerKeyStep<T, K>(xs: seq<T>, x: T, key: T -> K)
    ensures FirstPerKey(xs + [x], key) == if key(x) in KeysOf(FirstPerKey(xs, key), key) then FirstPerKey(xs, key) else FirstPerKey(xs, key) + [x]
    ensures KeysOf(FirstPerKey(xs, key) + [x], key) == KeysOf(FirstPerKey(xs, key), key) + [key(x)]
  {
    assert (xs + [x])[..|xs|] == xs;
  }

  /** The kept keys are the keys de-duplicated, in order of first appearance. */
  lemma {:induction false} FirstPerKeyKeys<T, K>(xs: seq<T>, key: T -> K)
    ensures KeysOf(FirstPerKey(xs, key), key) == Dedup(KeysOf(xs, key))
  {
    if xs != [] {
      var n := |xs| - 1;
      var init := xs[..n];
      FirstPerKeyKeys(init, key);
      var kept := FirstPerKey(init, key);
      assert KeysOf(xs, key)[..n] == KeysOf(init, key);
      if key(xs[n]) !in KeysOf(kept, key) {
        assert KeysOf(kept + [xs[n]], key) == KeysOf(kept, key) + [key(xs[n])];
      }
    }
  }

  /** The element kept for a key is the first one with that key. */
  lemma {:induction false} FirstPerKeyFirst<T, K>(xs: seq<T>, key: T -> K)
    ensures forall k :: 0 <= k < |FirstPerKey(xs, key)| ==>
      key(FirstPerKey(xs, key)[k]) in KeysOf(xs, key) && FirstPerKey(xs, key)[k] == xs[FirstIndex(KeysOf(xs, key), key(FirstPerKey(xs, key)[k]))]
  {
    if xs != [] {
      var n := |xs| - 1;
      var init := xs[..n];
      FirstPerKeyFirst(init, key);
      var kept := FirstPerKey(init, key);
      var keys := KeysOf(xs, key);
      assert keys[..n] == KeysOf(init, key);
      forall k | 0 <= k < |kept|
        ensures key(kept[k]) in keys && kept[k] == xs[FirstIndex(keys, key(kept[k]))]
      {
        FirstIndexOfPrefix(keys, n, key(kept[k]));
      }
      if key(xs[n]) !in KeysOf(kept, key) {
        FirstPerKeyKeys(init, key);
        DedupProperties(KeysOf(init, key));
        assert KeysOf(kept, key) == Dedup(KeysOf(init, key));
        assert key(xs[n]) !in KeysOf(init, key);
        assert keys[n] == key(xs[n]);
        assert FirstIndex(keys, key(xs[n])) == n;
        var r := kept + [xs[n]];
        forall k | 0 <= k < |r| ensures key(r[k]) in keys && r[k] == xs[FirstIndex(keys, key(r[k]))] {
          if k < |kept| { assert r[k] == kept[k]; }
        }
      }
    }
  }

  /** First-wins de-duplication: distinct keys, every key kept, each by its first element. */
  lemma FirstPerKeyProperties<T, K>(xs: seq<T>, key: T -> K)
    ensures forall i, j :: 0 <= i < j < |FirstPerKey(xs, key)| ==> key(FirstPerKey(xs, key)[i]) != key(FirstPerKey(xs, key)[j])
    ensures forall x :: x in KeysOf(FirstPerKey(xs, key), key) <==> x in KeysOf(xs, key)
    ensures forall k :: 0 <= k < |FirstPerKey(xs, key)| ==>
      key(FirstPerKey(xs, key)[k]) in KeysOf(xs, key) && FirstPerKey(xs, key)[k] == xs[FirstIndex(KeysOf(xs, key), key(FirstPerKey(xs, key)[k]))]
  {
    var kept := FirstPerKey(xs, key);
    FirstPerKeyKeys(xs, key);
    FirstPerKeyFirst(xs, key);
    DedupProperties(KeysOf(xs, key));
    forall i, j | 0 <= i < j < |kept| ensures key(kept[i]) != key(kept[j]) {
      assert KeysOf(kept, key)[i] == key(kept[i]) && KeysOf(kept, key)[j] == key(kept[j]);
    }
  }
}
