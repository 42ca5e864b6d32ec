/** The PHP opening tag. By convention PHP snippets travel over the wire without it and are
    stored with it; create enforces the convention, update does not (see UpdateDoublesTag).
    Saving wraps the code (drop a trailing run of `?`/`>`, prepend `<?php` and a line end);
    reading strips it (drop a leading `<?php`, then every leading line end). */
module PhpTags {
  import opened Php

  /** PHP_EOL, fixed to the Unix line end. */
  const EOL: string := "\n"
  const OpenTag: string := "<?php"
  /** The stored prefix: the opening tag and a line end. */
  const Header: string := OpenTag + EOL

  /** The character set `rtrim($code, '?>')` removes. */
  const CloseTagChars: set<char> := {'?', '>'}
  /** The character set `ltrim($code, PHP_EOL)` removes. */
  const EolChars: set<char> := {'\n'}

  predicate EndsInCloseTagChar(s: string)
  {
    s != [] && s[|s| - 1] in CloseTagChars
  }

  /** The storage form of PHP code: its trailing run of `?` and `>` characters removed
      and the header prepended. */
  function WrapPhp(code: string): (r: string)
    ensures StartsWith(r, Header)
    ensures |r| <= |Header| + |code| && r[|Header|..] == code[..|r| - |Header|]
    ensures !EndsInCloseTagChar(r)
    ensures forall i :: |r| - |Header| <= i < |code| ==> code[i] in CloseTagChars
  {
    var body := RTrim(code, CloseTagChars);
    assert (Header + body)[..|Header|] == Header;
    Header + body
  }

  /** The wire form of stored PHP code: one leading `<?php` removed, then all leading
      line ends. */
  function StripPhp(code: string): (r: string)
    ensures var k := if StartsWith(code, OpenTag) then |OpenTag| else 0;
            k + |r| <= |code| && r == code[|code| - |r|..]
            && forall i :: k <= i < |code| - |r| ==> code[i] == '\n'
    ensures r == [] || r[0] != '\n'
  {
    var rest := if StartsWith(code, OpenTag) then code[|OpenTag|..] else code;
    LTrim(rest, EolChars)
  }

  /** The code the saving handlers store and validate for a snippet of the given type. */
  function StoreForm(snippetType: string, code: string): (r: string)
    ensures snippetType == "PHP" ==> StartsWith(r, OpenTag)
    ensures snippetType != "PHP" ==> r == code
  {
    if snippetType == "PHP" then WrapPhp(code) else code
  }

  /** The code the lookup handler returns for a stored snippet of the given type. */
  function ReadForm(snippetType: string, code: string): (r: string)
    ensures snippetType != "PHP" ==> r == code
    ensures snippetType == "PHP" ==> r == [] || r[0] != '\n'
  {
    if snippetType == "PHP" then StripPhp(code) else code
  }

  /** Reading back wrapped code yields the input with its trailing `?`/`>` run and then
      its leading line ends removed. */
  lemma StripAfterWrap(code: string)
    ensures StripPhp(WrapPhp(code)) == LTrim(RTrim(code, CloseTagChars), EolChars)
  {
    var body := RTrim(code, CloseTagChars);
    var w := Header + body;
    assert w == WrapPhp(code);
    assert StartsWith(w, OpenTag) by { assert w[..|OpenTag|] == OpenTag; }
    assert w[|OpenTag|..] == [EOL[0]] + body;
    LTrimSkipsHead(EOL[0], body, EolChars);
  }

  /** Code that neither starts with a line end nor ends in `?` or `>` survives the trims. */
  lemma TrimsKeepPlainCode(code: string)
    requires !StartsWith(code, EOL) && !EndsInCloseTagChar(code)
    ensures LTrim(RTrim(code, CloseTagChars), EolChars) == code
  {
    assert RTrim(code, CloseTagChars) == code;
    if code != [] {
      assert code[..1] == [code[0]];
    }
  }

  /** Code that ends in `?` or `>`, or starts with a line end, loses characters. */
  lemma TrimsShortenOtherCode(code: string)
    requires StartsWith(code, EOL) || EndsInCloseTagChar(code)
    ensures |LTrim(RTrim(code, CloseTagChars), EolChars)| < |code|
  {
    var body := RTrim(code, CloseTagChars);
    if !EndsInCloseTagChar(code) {
      assert body == code;
      assert code[0] == '\n' by { assert code[..1] == EOL; }
    }
  }

  /** The round trip: reading back what was stored returns the code exactly when it
      neither starts with a line end nor ends in `?` or `>`. */
  lemma {:induction false} StripWrapRoundTrip(code: string)
    ensures StripPhp(WrapPhp(code)) == code
            <==> !StartsWith(code, EOL) && !EndsInCloseTagChar(code)
  {
    StripAfterWrap(code);
    if !StartsWith(code, EOL) && !EndsInCloseTagChar(code) {
      TrimsKeepPlainCode(code);
    } else {
      TrimsShortenOtherCode(code);
    }
  }

  /** For every type the read form undoes the store form under the round-trip side
      conditions, and for non-PHP types it always does. */
  lemma ReadAfterStore(snippetType: string, code: string)
    requires snippetType == "PHP" ==> !StartsWith(code, EOL) && !EndsInCloseTagChar(code)
    ensures ReadForm(snippetType, StoreForm(snippetType, code)) == code
  {
    if snippetType == "PHP" {
      StripWrapRoundTrip(code);
    }
  }

  /** Create's example: `echo 1;` is stored as `<?php` + line end + `echo 1;` and read
      back unchanged. */
  lemma EchoRoundTrip()
    ensures StoreForm("PHP", "echo 1;") == Header + "echo 1;"
    ensures ReadForm("PHP", StoreForm("PHP", "echo 1;")) == "echo 1;"
  {
    var c := "echo 1;";
    RTrimUnique(c, CloseTagChars, c);
    assert !StartsWith(c, EOL) by { assert c[0] == 'e'; }
    StripWrapRoundTrip(c);
  }

  /** The trim works on characters, not on the literal close tag: it eats a repeated
      `?>` as well as the `>` of trailing markup. */
  lemma TrimIsCharacterWise()
    ensures WrapPhp("echo 1; ?>?>") == "<?php\necho 1; "
    ensures WrapPhp("?><b>") == "<?php\n?><b"
  {
    RTrimUnique("echo 1; ?>?>", CloseTagChars, "echo 1; ");
    RTrimUnique("?><b>", CloseTagChars, "?><b");
  }

  /** Update does not reject code that already carries the opening tag, so it stores the
      tag twice. */
  lemma UpdateDoublesTag(x: string)
    ensures WrapPhp(Header + x) == Header + (Header + RTrim(x, CloseTagChars))
  {
    RTrimAppend(Header, x, CloseTagChars);
  }

  /** ... and reading such a snippet back returns code that still starts with the tag. */
  lemma ReadOfDoubledTag(x: string)
    ensures StripPhp(WrapPhp(Header + x)) == Header + RTrim(x, CloseTagChars)
  {
    RTrimAppend(Header, x, CloseTagChars);
    StripAfterWrap(Header + x);
    var tail := Header + RTrim(x, CloseTagChars);
    assert tail[0] == '<';
  }
}
