/** Annotation keys, volume names and downward-API field paths, and the regular expression that recognises the latter. */
module FieldPath {
  import opened Text

  /** GroupName + "/projection". */
  const PROJECTION_KEY := "internal.bindings.labs.vmware.com/projection"
  const VOLUME_PREFIX := "binding-"
  const PATH_OPEN := "metadata.annotations['"
  const PATH_CLOSE := "']"

  /** The two annotations that carry overridden values into the pod template. */
  datatype Meta = TypeMeta | ProviderMeta

  function Suffix(m: Meta): string {
    match m
    case TypeMeta => "-type"
    case ProviderMeta => "-provider"
  }

  /** `annotationKey`: the key under which a projection called `name` records its secret. */
  function AnnotationKey(name: string): string {
    PROJECTION_KEY + "-" + Sha1Hex(name)
  }

  function MetaKey(name: string, m: Meta): string {
    AnnotationKey(name) + Suffix(m)
  }

  function MetaPath(name: string, m: Meta): string {
    PATH_OPEN + MetaKey(name, m) + PATH_CLOSE
  }

  function VolumeName(secret: string): string {
    VOLUME_PREFIX + Sha1Hex(secret)
  }

  /** The literal text before the digest in the regular expression. */
  const ANCHOR := PATH_OPEN + PROJECTION_KEY + "-"

  /** The length of the longest prefix that matches `[0-9a-f]*`. */
  function HexRun(s: string): (n: nat)
    ensures n <= |s|
    ensures forall i | 0 <= i < n :: IsHexChar(s[i])
    ensures n < |s| ==> !IsHexChar(s[n])
  {
    if s == "" || !IsHexChar(s[0]) then 0 else 1 + HexRun(s[1..])
  }

  /** `fieldPathAnnotationRe.MatchString`: anchor, one or more hexadecimal digits, one of two endings, end of text. */
  predicate Matches(path: string) {
    && ANCHOR <= path
    && var rest := path[|ANCHOR|..];
      var n := HexRun(rest);
      n > 0 && (rest[n..] == Suffix(TypeMeta) + PATH_CLOSE || rest[n..] == Suffix(ProviderMeta) + PATH_CLOSE)
  }

  /** The language of the regular expression. */
  function Printed(hex: string, m: Meta): string {
    ANCHOR + hex + (Suffix(m) + PATH_CLOSE)
  }

  lemma EndingIsNotHex(m: Meta)
    ensures |Suffix(m)| > 0 && Suffix(m)[0] == '-' && !IsHexChar('-')
    ensures Suffix(TypeMeta) + PATH_CLOSE != Suffix(ProviderMeta) + PATH_CLOSE
  {
  }

  lemma {:induction false} HexRunStops(hex: string, end: string)
    requires forall i | 0 <= i < |hex| :: IsHexChar(hex[i])
    requires end == "" || !IsHexChar(end[0])
    ensures HexRun(hex + end) == |hex|
  {
    if hex == "" {
      assert hex + end == end;
    } else {
      assert (hex + end)[1..] == hex[1..] + end;
      HexRunStops(hex[1..], end);
    }
  }

  lemma PrintedMatches(hex: string, m: Meta)
    requires IsHex(hex)
    ensures Matches(Printed(hex, m))
    ensures var rest := Printed(hex, m)[|ANCHOR|..]; HexRun(rest) == |hex| && rest[..|hex|] == hex
    ensures Printed(hex, m)[|ANCHOR|..][|hex|..] == Suffix(m) + PATH_CLOSE
  {
    var end := Suffix(m) + PATH_CLOSE;
    EndingIsNotHex(m);
    assert end[0] == Suffix(m)[0];
    var path := Printed(hex, m);
    assert path == ANCHOR + (hex + end);
    assert path[|ANCHOR|..] == hex + end;
    HexRunStops(hex, end);
    assert (hex + end)[|hex|..] == end;
  }

  /** The recogniser accepts exactly the printed paths. */
  lemma MatchesExactlyPrinted(path: string)
    ensures Matches(path) <==> exists hex: string, m: Meta :: IsHex(hex) && path == Printed(hex, m)
  {
    if Matches(path) {
      var rest := path[|ANCHOR|..];
      var n := HexRun(rest);
      var hex := rest[..n];
      var m := if rest[n..] == Suffix(TypeMeta) + PATH_CLOSE then TypeMeta else ProviderMeta;
      assert rest == hex + (Suffix(m) + PATH_CLOSE);
      assert path == ANCHOR + rest;
      assert path == Printed(hex, m);
      assert IsHex(hex);
    }
    if hex: string, m: Meta :| IsHex(hex) && path == Printed(hex, m) {
      PrintedMatches(hex, m);
    }
  }

  /** Digest and ending can be read back from a path. */
  lemma PrintedUnique(hex: string, m: Meta, hex': string, m': Meta)
    requires IsHex(hex) && IsHex(hex')
    requires Printed(hex, m) == Printed(hex', m')
    ensures hex == hex' && m == m'
  {
    PrintedMatches(hex, m);
    PrintedMatches(hex', m');
    EndingIsNotHex(m);
  }

  lemma MetaPathIsPrinted(name: string, m: Meta)
    ensures MetaPath(name, m) == Printed(Sha1Hex(name), m)
  {
    var hex: string := Sha1Hex(name);
    assert PATH_OPEN + (PROJECTION_KEY + "-" + hex + Suffix(m)) + PATH_CLOSE
        == (PATH_OPEN + PROJECTION_KEY + "-") + hex + (Suffix(m) + PATH_CLOSE);
  }

  /** Every path that `Do` prints is recognised, whoever printed it. */
  lemma MetaPathMatches(name: string, m: Meta)
    ensures Matches(MetaPath(name, m))
  {
    MetaPathIsPrinted(name, m);
    PrintedMatches(Sha1Hex(name), m);
  }

  /** A path tells which digest and which annotation it names. */
  lemma MetaPathUnique(name: string, m: Meta, name': string, m': Meta)
    requires MetaPath(name, m) == MetaPath(name', m')
    ensures Sha1Hex(name) == Sha1Hex(name') && m == m'
  {
    MetaPathIsPrinted(name, m);
    MetaPathIsPrinted(name', m');
    PrintedUnique(Sha1Hex(name), m, Sha1Hex(name'), m');
  }

  /** Keys collide only when digests do; a template key is never a recording key. */
  lemma KeysInjective(name: string, name': string, m: Meta, m': Meta)
    ensures AnnotationKey(name) == AnnotationKey(name') <==> Sha1Hex(name) == Sha1Hex(name')
    ensures MetaKey(name, m) == MetaKey(name', m') <==> Sha1Hex(name) == Sha1Hex(name') && m == m'
    ensures VolumeName(name) == VolumeName(name') <==> Sha1Hex(name) == Sha1Hex(name')
    ensures PROJECTION_KEY <= AnnotationKey(name) && PROJECTION_KEY <= MetaKey(name, m)
  {
    var h: string, h': string := Sha1Hex(name), Sha1Hex(name');
    assert AnnotationKey(name)[|PROJECTION_KEY| + 1..] == h;
    assert AnnotationKey(name')[|PROJECTION_KEY| + 1..] == h';
    assert VolumeName(name)[|VOLUME_PREFIX|..] == h;
    assert VolumeName(name')[|VOLUME_PREFIX|..] == h';
    if MetaKey(name, m) == MetaKey(name', m') {
      MetaPathUnique(name, m, name', m');
    }
    if h == h' && m == m' {
      assert MetaKey(name, m) == MetaKey(name', m');
    }
  }
}
