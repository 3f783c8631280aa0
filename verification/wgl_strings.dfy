/** `StringsAreEqual` and the extension-string tokenizer of `GetWglFunctions` in win32_main.cpp. C strings
    are character sequences that contain a NUL; the string proper is everything before the first NUL. */
module WglStrings {
  import opened Wrappers
  import opened CStrings
  import opened CTypes

  const Space: char := ' '

  /** What `StringsAreEqual(src, dst, dstlen)` as written answers 1 to. When src is no longer than dstlen it
      asks that src is a prefix of dst and that dst also ends there (or that exactly dstlen characters were
      compared). When src is longer, `dstlen--` has wrapped to `SIZE_MAX`, and the answer is whether the first
      dstlen + 1 characters agree. */
  predicate AgreesAsWritten(src: seq<char>, dst: seq<char>, dstlen: nat)
    requires Nul in src && Nul in dst
  {
    var n := CLength(src);
    if n <= dstlen then
      n <= CLength(dst) && src[..n] == dst[..n] && (n == dstlen || dst[n] == Nul)
    else
      dstlen <= CLength(dst) && src[..dstlen + 1] == dst[..dstlen + 1]
  }

  /** What the comment on `StringsAreEqual` promises: src equals the first dstlen characters of dst. */
  predicate Agrees(src: seq<char>, dst: seq<char>, dstlen: nat)
    requires Nul in src && Nul in dst
  {
    dstlen <= CLength(dst) && src[..CLength(src)] == dst[..dstlen]
  }

  /** `StringsAreEqual` as written: `dstlen--` in the loop condition is evaluated whenever `*src` is not
      NUL, including when dstlen is already 0, where it wraps. */
  method StringsAreEqual(src: seq<char>, dst: seq<char>, dstlen: nat) returns (r: int)
    requires Nul in src && Nul in dst && dstlen < SizeModulus
    ensures r == 0 || r == 1
    ensures r == 1 <==> AgreesAsWritten(src, dst, dstlen)
  {
    var i := 0;
    var n := dstlen;
    while src[i] != Nul && n != 0 && dst[i] != Nul
      invariant 0 <= i <= CLength(src) && i <= CLength(dst) && i <= dstlen
      invariant n == dstlen - i
      invariant src[..i] == dst[..i]
      decreases CLength(src) - i
    {
      n := n - 1;
      if src[i] != dst[i] {
        assert !AgreesAsWritten(src, dst, dstlen) by {
          if CLength(src) <= dstlen && CLength(src) <= CLength(dst) {
            assert src[..CLength(src)][i] != dst[..CLength(src)][i];
          } else if dstlen < CLength(src) && dstlen <= CLength(dst) {
            assert src[..dstlen + 1][i] != dst[..dstlen + 1][i];
          }
        }
        return 0;
      }
      assert src[..i + 1] == src[..i] + [src[i]] && dst[..i + 1] == dst[..i] + [dst[i]];
      i := i + 1;
    }
    if src[i] != Nul {
      n := if n == 0 then SizeModulus - 1 else n - 1;
    }
    r := if (n != 0 && src[i] == dst[i]) || (n == 0 && src[i] == Nul) then 1 else 0;
    if src[i] == Nul {
      assert CLength(src) == i;
    } else if i == dstlen {
      assert src[..i + 1] == src[..i] + [src[i]] && dst[..i + 1] == dst[..i] + [dst[i]];
      if CLength(src) <= dstlen {
        assert false;
      }
    } else {
      assert dst[i] == Nul && CLength(dst) == i;
    }
  }

  /** `StringsAreEqual` with the wrap removed: the count is only decremented while characters remain to be
      compared, and the answer is whether src ended exactly when the count did. */
  method StringsMatch(src: seq<char>, dst: seq<char>, dstlen: nat) returns (r: int)
    requires Nul in src && Nul in dst && dstlen < SizeModulus
    ensures r == 0 || r == 1
    ensures r == 1 <==> Agrees(src, dst, dstlen)
  {
    var i := 0;
    var n := dstlen;
    while src[i] != Nul && n != 0 && dst[i] != Nul
      invariant 0 <= i <= CLength(src) && i <= CLength(dst) && i <= dstlen
      invariant n == dstlen - i
      invariant src[..i] == dst[..i]
      decreases CLength(src) - i
    {
      if src[i] != dst[i] {
        assert !Agrees(src, dst, dstlen) by {
          if dstlen <= CLength(dst) && CLength(src) == dstlen {
            assert src[..CLength(src)][i] != dst[..dstlen][i];
          }
        }
        return 0;
      }
      assert src[..i + 1] == src[..i] + [src[i]] && dst[..i + 1] == dst[..i] + [dst[i]];
      n := n - 1;
      i := i + 1;
    }
    r := if n == 0 && src[i] == Nul then 1 else 0;
    if src[i] == Nul {
      assert CLength(src) == i;
    } else if n == 0 {
      assert CLength(src) != dstlen;
    } else {
      assert dst[i] == Nul && CLength(dst) == i && i < dstlen;
    }
  }

  /** The discrepancy: "ab" against the one character "a" of "abc" answers 1 as written, although the two
      differ. */
  lemma AsWrittenAcceptsLongerSource(src: seq<char>, dst: seq<char>, dstlen: nat)
    requires src == ['a', 'b', Nul] && dst == ['a', 'b', 'c', Nul] && dstlen == 1
    ensures AgreesAsWritten(src, dst, dstlen) && !Agrees(src, dst, dstlen)
  {
    assert CLength(src) == 2 by {
      assert src[1..][1..] == [Nul];
    }
    assert CLength(dst) == 3 by {
      assert dst[1..][1..][1..] == [Nul];
    }
    assert src[..2] == ['a', 'b'] && dst[..2] == ['a', 'b'];
    assert src[..CLength(src)] != dst[..1];
  }

  /** A name with no space and no NUL. */
  predicate IsName(name: seq<char>) {
    Space !in name && Nul !in name
  }

  /** The only way the tokenizer calls it, with a space-free name and a token that a space ends, the
      as-written and the corrected comparison agree. */
  lemma CallPatternAgrees(name: seq<char>, dst: seq<char>, dstlen: nat)
    requires IsName(name) && Nul in dst
    requires dstlen <= CLength(dst) && dst[dstlen] == Space
    ensures AgreesAsWritten(name + [Nul], dst, dstlen) <==> Agrees(name + [Nul], dst, dstlen)
    ensures Agrees(name + [Nul], dst, dstlen) <==> name == dst[..dstlen]
  {
    var src := name + [Nul];
    assert CLength(src) == |name| by {
      assert src[|name|] == Nul;
      assert forall j | 0 <= j < |name| :: src[j] == name[j];
    }
    assert src[..CLength(src)] == name;
    if |name| > dstlen {
      assert src[dstlen] == name[dstlen] && name[dstlen] != Space;
      assert src[..dstlen + 1][dstlen] != dst[..dstlen + 1][dstlen];
    } else if |name| < dstlen {
      assert dst[|name|] != Nul;
    }
  }

  /** The tokens of s, given the run already scanned since the last space: each space ends the current run,
      which becomes the next token (an empty one where two spaces meet). */
  function TokensAfter(run: seq<char>, s: seq<char>): seq<seq<char>>
    decreases |s|
  {
    if s == [] then []
    else if s[0] == Space then [run] + TokensAfter([], s[1..])
    else TokensAfter(run + [s[0]], s[1..])
  }

  /** The tokens the extension loop compares: the runs of s that a space ends, in order. Whatever follows
      the last space is not one of them. */
  function SpaceTerminatedTokens(s: seq<char>): seq<seq<char>> {
    TokensAfter([], s)
  }

  /** Appending after a space appends the tokens. */
  lemma {:induction false} TokensAfterAppend(run: seq<char>, p: seq<char>, q: seq<char>)
    requires p != [] && p[|p| - 1] == Space
    ensures TokensAfter(run, p + q) == TokensAfter(run, p) + TokensAfter([], q)
    decreases |p|
  {
    assert (p + q)[0] == p[0] && (p + q)[1..] == p[1..] + q;
    if p[1..] == [] {
      assert p[1..] + q == q;
    } else if p[0] == Space {
      TokensAfterAppend([], p[1..], q);
    } else {
      TokensAfterAppend(run + [p[0]], p[1..], q);
    }
  }

  /** A space-free stretch only extends the current run. */
  lemma {:induction false} RunWithoutSpace(run: seq<char>, t: seq<char>, rest: seq<char>)
    requires Space !in t
    ensures TokensAfter(run, t + rest) == TokensAfter(run + t, rest)
    decreases |t|
  {
    if t == [] {
      assert t + rest == rest && run + t == run;
    } else {
      assert (t + rest)[0] == t[0] && (t + rest)[1..] == t[1..] + rest;
      assert run + [t[0]] + t[1..] == run + t;
      RunWithoutSpace(run + [t[0]], t[1..], rest);
    }
  }

  /** Splitting after a space splits the tokens. */
  lemma TokensAppend(p: seq<char>, q: seq<char>)
    requires p == [] || p[|p| - 1] == Space
    ensures SpaceTerminatedTokens(p + q) == SpaceTerminatedTokens(p) + SpaceTerminatedTokens(q)
  {
    if p == [] {
      assert p + q == q;
    } else {
      TokensAfterAppend([], p, q);
    }
  }

  /** A space-free run followed by a space is one token. */
  lemma TerminatedRunIsOneToken(t: seq<char>)
    requires Space !in t
    ensures SpaceTerminatedTokens(t + [Space]) == [t]
  {
    RunWithoutSpace([], t, [Space]);
    assert [] + t == t;
  }

  /** The run after the last space is never a token, however it reads. */
  lemma FinalTokenIsNeverExamined(p: seq<char>, last: seq<char>)
    requires p == [] || p[|p| - 1] == Space
    requires Space !in last
    ensures SpaceTerminatedTokens(p + last) == SpaceTerminatedTokens(p)
  {
    TokensAppend(p, last);
    RunWithoutSpace([], last, []);
    assert last + [] == last;
  }

  const PixelFormatName: string := "WGL_ARB_pixel_format"
  const CreateContextName: string := "WGL_ARB_create_context"
  const SwapControlName: string := "WGL_EXT_swap_control"
  const ExtensionsMissing: string := "OpenGL does not support required WGL extensions for modern context!"

  /** Which of the three WGL entry points the extension loop asked for. */
  datatype WglExtensions = WglExtensions(pixelFormat: bool, createContext: bool, swapControl: bool)

  /** The three extension names are distinct, space-free names. */
  lemma ExtensionNamesAreNames()
    ensures IsName(PixelFormatName) && IsName(CreateContextName) && IsName(SwapControlName)
    ensures PixelFormatName != CreateContextName && PixelFormatName != SwapControlName
    ensures CreateContextName != SwapControlName
  {
    assert PixelFormatName[4] != SwapControlName[4];
    assert |PixelFormatName| != |CreateContextName| && |CreateContextName| != |SwapControlName|;
  }

  /** One pass of the comparison chain for the run `dst[..length]` that a space ends: the first name equal to
      the run has its flag set, and the other flags are kept. */
  method RecordToken(found: WglExtensions, dst: seq<char>, length: nat) returns (next: WglExtensions)
    requires Nul in dst && length <= CLength(dst) && dst[length] == Space && length < SizeModulus
    ensures next.pixelFormat <==> found.pixelFormat || dst[..length] == PixelFormatName
    ensures next.createContext <==> found.createContext || dst[..length] == CreateContextName
    ensures next.swapControl <==> found.swapControl || dst[..length] == SwapControlName
  {
    ExtensionNamesAreNames();
    CallPatternAgrees(PixelFormatName, dst, length);
    CallPatternAgrees(CreateContextName, dst, length);
    CallPatternAgrees(SwapControlName, dst, length);
    next := found;
    var matched := StringsMatch(PixelFormatName + [Nul], dst, length);
    if matched == 1 {
      next := next.(pixelFormat := true);
    } else {
      matched := StringsMatch(CreateContextName + [Nul], dst, length);
      if matched == 1 {
        next := next.(createContext := true);
      } else {
        matched := StringsMatch(SwapControlName + [Nul], dst, length);
        if matched == 1 {
          next := next.(swapControl := true);
        }
      }
    }
  }

  /** Passing a space that ends the run `ext[start..pos]` adds that run as the next token. */
  lemma TokenStep(ext: seq<char>, start: nat, pos: nat)
    requires start <= pos < |ext| && ext[pos] == Space && Space !in ext[start..pos]
    requires start == 0 || ext[start - 1] == Space
    ensures SpaceTerminatedTokens(ext[..pos + 1]) == SpaceTerminatedTokens(ext[..start]) + [ext[start..pos]]
  {
    assert ext[..pos + 1] == ext[..start] + (ext[start..pos] + [Space]);
    TokensAppend(ext[..start], ext[start..pos] + [Space]);
    TerminatedRunIsOneToken(ext[start..pos]);
  }

  /** Which names occur among the tokens. */
  predicate Records(found: WglExtensions, tokens: seq<seq<char>>) {
    (found.pixelFormat <==> PixelFormatName in tokens) &&
    (found.createContext <==> CreateContextName in tokens) &&
    (found.swapControl <==> SwapControlName in tokens)
  }

  /** Recording one more token keeps `Records`. */
  lemma RecordsAppend(found: WglExtensions, next: WglExtensions, tokens: seq<seq<char>>, token: seq<char>)
    requires Records(found, tokens)
    requires next.pixelFormat <==> found.pixelFormat || token == PixelFormatName
    requires next.createContext <==> found.createContext || token == CreateContextName
    requires next.swapControl <==> found.swapControl || token == SwapControlName
    ensures Records(next, tokens + [token])
  {
  }

  /** At the terminating NUL the tokens seen so far are all the tokens. */
  lemma ScanEnds(ext: seq<char>, start: nat, pos: nat)
    requires Nul in ext && start <= pos <= CLength(ext) && ext[pos] == Nul
    requires Space !in ext[start..pos] && (start == 0 || ext[start - 1] == Space)
    ensures SpaceTerminatedTokens(ext[..CLength(ext)]) == SpaceTerminatedTokens(ext[..start])
  {
    assert pos == CLength(ext);
    assert ext[..pos] == ext[..start] + ext[start..pos];
    FinalTokenIsNeverExamined(ext[..start], ext[start..pos]);
  }

  /** The loop hands `StringsAreEqual` the rest of the buffer from `start`, with the space at `pos` ending
      the run: the pattern `CallPatternAgrees` covers. */
  lemma SuffixCallPattern(ext: seq<char>, start: nat, pos: nat)
    requires Nul in ext && start <= pos < CLength(ext) && ext[pos] == Space
    ensures Nul in ext[start..] && pos - start <= CLength(ext[start..])
    ensures ext[start..][pos - start] == Space && ext[start..][..pos - start] == ext[start..pos]
  {
    var dst := ext[start..];
    assert dst[CLength(ext) - start] == Nul;
    assert forall j | 0 <= j < pos - start :: dst[j] == ext[start + j];
  }

  /** The inner scan of the extension loop: advance to the next space or the terminating NUL. */
  method NextSeparator(ext: seq<char>, start: nat) returns (pos: nat)
    requires Nul in ext && start <= CLength(ext)
    ensures start <= pos <= CLength(ext)
    ensures ext[pos] == Nul || ext[pos] == Space
    ensures Space !in ext[start..pos]
  {
    pos := start;
    while ext[pos] != Nul && ext[pos] != Space
      invariant start <= pos <= CLength(ext)
      invariant Space !in ext[start..pos]
      decreases CLength(ext) - pos
    {
      assert ext[start..pos + 1] == ext[start..pos] + [ext[pos]];
      pos := pos + 1;
    }
  }

  /** The tokenizer of `GetWglFunctions`: scan to the next space or NUL, stop at NUL, otherwise compare the
      run before the space with each name in turn and continue after the space. */
  method ScanExtensions(ext: seq<char>) returns (found: WglExtensions)
    requires Nul in ext && |ext| < SizeModulus
    ensures Records(found, SpaceTerminatedTokens(ext[..CLength(ext)]))
  {
    found := WglExtensions(false, false, false);
    assert ext[..0] == [];
    var start := 0;
    var pos := 0;
    while true
      invariant start == pos <= CLength(ext)
      invariant start == 0 || ext[start - 1] == Space
      invariant Records(found, SpaceTerminatedTokens(ext[..start]))
      decreases CLength(ext) - start
    {
      pos := NextSeparator(ext, start);
      if ext[pos] == Nul {
        ScanEnds(ext, start, pos);
        break;
      }
      var length := pos - start;
      var dst := ext[start..];
      SuffixCallPattern(ext, start, pos);
      var next := RecordToken(found, dst, length);
      TokenStep(ext, start, pos);
      RecordsAppend(found, next, SpaceTerminatedTokens(ext[..start]), ext[start..pos]);
      found := next;
      pos := pos + 1;
      start := pos;
    }
  }

  /** The end of `GetWglFunctions`: halt unless all three extensions were found. */
  method GetWglExtensions(ext: seq<char>) returns (r: Result<WglExtensions, string>)
    requires Nul in ext && |ext| < SizeModulus
    ensures var tokens := SpaceTerminatedTokens(ext[..CLength(ext)]);
      r.Success? <==> PixelFormatName in tokens && CreateContextName in tokens && SwapControlName in tokens
    ensures r.Success? ==> r.value == WglExtensions(true, true, true)
    ensures r.Failure? ==> r.error == ExtensionsMissing
  {
    var found := ScanExtensions(ext);
    if !found.pixelFormat || !found.createContext || !found.swapControl {
      return Failure(ExtensionsMissing);
    }
    return Success(found);
  }
}
