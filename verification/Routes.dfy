/**
 * The two route policies for data-plane requests, one in the OkHttp client and one for components, and
 * what an accepted opaque path means to whoever decodes and normalises it (RFC 3986, sections 2.1 and 5.2.4).
 */
module Routes {
  import opened Text

  /** A parsed target, its path after an empty one was read as "/". */
  datatype Target = Target(sameOrigin: bool, userInfo: bool, fragment: bool, path: string, query: bool)

  const STRUCTURED := {"/v1/responses", "/v1/chat/completions", "/v1/embeddings", "/v1/messages"}
  const METHODS := {"GET", "POST", "PUT", "PATCH", "DELETE"}

  predicate EndsWithSlash(s: string) {
    s != "" && s[|s| - 1] == '/'
  }

  function OpaquePrefix(feature: string): string {
    "/proxy/" + feature + "/"
  }

  predicate IsDots(segment: string) {
    segment == "." || segment == ".."
  }

  /** The test both policies apply to what follows the opaque prefix. */
  predicate OpaqueRest(rest: string) {
    && 1 <= |rest| <= 2_048
    && (forall k :: 0 <= k < |Split(rest, '/')| ==> Split(rest, '/')[k] != "" && !IsDots(Split(rest, '/')[k]))
    && !Contains(Lower(rest), "%2e") && !Contains(Lower(rest), "%2f") && !Contains(Lower(rest), "%5c")
    && Lacks(rest, '\\')
    && !StartsWith(Lower(rest), "http:") && !StartsWith(Lower(rest), "https:")
  }

  /** isAllowedDataPlaneRequest: early returns in the order of the source. */
  predicate AllowedRequest(base: string, t: Target, verb: string, feature: string) {
    if !t.sameOrigin then false
    else if t.userInfo || t.fragment then false
    else if !EndsWithSlash(base) || !StartsWith(t.path, base) then false
    else
      var relative := "/" + RemovePrefix(t.path, base);
      if relative in STRUCTURED then verb == "POST"
      else if verb !in METHODS then false
      else if t.query then false
      else if !StartsWith(relative, OpaquePrefix(feature)) then false
      else OpaqueRest(RemovePrefix(relative, OpaquePrefix(feature)))
  }

  predicate GatewayDestination(base: string, t: Target) {
    !t.userInfo && !t.fragment && t.sameOrigin && StartsWith(t.path, base)
  }

  /** requireComponentDataPlaneDestination: one disjunction behind the general destination check. */
  predicate ComponentDestination(base: string, t: Target, verb: string, feature: string) {
    && GatewayDestination(base, t)
    && var relative := "/" + RemovePrefix(t.path, base);
       var normalized := Upper(verb);
       var rest := RemovePrefix(relative, OpaquePrefix(feature));
       || (relative in STRUCTURED && normalized == "POST")
       || (normalized in METHODS && !t.query && StartsWith(relative, OpaquePrefix(feature)) && OpaqueRest(rest))
  }

  lemma StructuredIsNotOpaque(relative: string, feature: string)
    requires relative in STRUCTURED
    ensures !StartsWith(relative, OpaquePrefix(feature))
  {
    assert relative[1] == 'v';
    assert OpaquePrefix(feature)[1] == 'p';
    assert |OpaquePrefix(feature)| <= |relative| ==> relative[..|OpaquePrefix(feature)|][1] == relative[1];
  }

  /** With a base path that ends in a slash the policies agree on every upper-case method. */
  lemma RoutesAgree(base: string, t: Target, verb: string, feature: string)
    requires EndsWithSlash(base) && Upper(verb) == verb
    ensures AllowedRequest(base, t, verb, feature) <==> ComponentDestination(base, t, verb, feature)
  {
    var relative := "/" + RemovePrefix(t.path, base);
    if relative in STRUCTURED {
      StructuredIsNotOpaque(relative, feature);
    }
  }

  /** A path that names a feature behind the base, and at most 2,048 characters of ordinary segments behind it. */
  ghost predicate OpaquePath(base: string, path: string, feature: string) {
    exists rest :: path == base + "proxy/" + feature + "/" + rest && 1 <= |rest| <= 2_048 && OpaqueRest(rest)
  }

  lemma Behind(prefix: string, s: string, rest: string)
    ensures StartsWith(s, prefix) && RemovePrefix(s, prefix) == rest <==> s == prefix + rest
  {
    if StartsWith(s, prefix) {
      assert s == prefix + s[|prefix|..];
    }
    if s == prefix + rest {
      assert s[..|prefix|] == prefix;
    }
  }

  lemma SlashCancels(x: string, y: string)
    ensures "/" + x == "/" + y <==> x == y
  {
    assert ("/" + x)[1..] == x && ("/" + y)[1..] == y;
  }

  lemma OpaqueBehind(base: string, path: string, feature: string, rest: string)
    requires StartsWith(path, base)
    ensures var relative := "/" + RemovePrefix(path, base);
      StartsWith(relative, OpaquePrefix(feature)) && RemovePrefix(relative, OpaquePrefix(feature)) == rest
      <==> path == base + "proxy/" + feature + "/" + rest
  {
    hide StartsWith, RemovePrefix;
    var name := "proxy/" + feature + "/";
    Behind(OpaquePrefix(feature), "/" + RemovePrefix(path, base), rest);
    Behind(base, path, name + rest);
    SlashCancels(RemovePrefix(path, base), name + rest);
    assert OpaquePrefix(feature) + rest == "/" + (name + rest);
    assert base + (name + rest) == base + "proxy/" + feature + "/" + rest;
  }

  lemma OpaquePaths(base: string, path: string, feature: string)
    requires StartsWith(path, base)
    ensures var relative := "/" + RemovePrefix(path, base);
      StartsWith(relative, OpaquePrefix(feature)) && OpaqueRest(RemovePrefix(relative, OpaquePrefix(feature)))
      <==> OpaquePath(base, path, feature)
  {
    hide OpaqueRest, StartsWith, RemovePrefix, OpaquePrefix;
    var found := RemovePrefix("/" + RemovePrefix(path, base), OpaquePrefix(feature));
    OpaqueBehind(base, path, feature, found);
    if OpaquePath(base, path, feature) {
      var rest :| path == base + "proxy/" + feature + "/" + rest && 1 <= |rest| <= 2_048 && OpaqueRest(rest);
      OpaqueBehind(base, path, feature, rest);
    }
    if OpaqueRest(found) {
      RestIsShort(found);
    }
  }

  lemma RestIsShort(rest: string)
    requires OpaqueRest(rest)
    ensures 1 <= |rest| <= 2_048
  {
  }

  lemma StructuredPath(base: string, path: string, route: string)
    ensures StartsWith(path, base) && "/" + RemovePrefix(path, base) == "/" + route <==> path == base + route
  {
    hide StartsWith, RemovePrefix;
    Behind(base, path, route);
    SlashCancels(RemovePrefix(path, base), route);
  }

  lemma StructuredPaths(base: string, path: string)
    ensures StartsWith(path, base) && "/" + RemovePrefix(path, base) in STRUCTURED <==>
      path in {base + "v1/responses", base + "v1/chat/completions", base + "v1/embeddings", base + "v1/messages"}
  {
    hide StartsWith, RemovePrefix;
    StructuredPath(base, path, "v1/responses");
    StructuredPath(base, path, "v1/chat/completions");
    StructuredPath(base, path, "v1/embeddings");
    StructuredPath(base, path, "v1/messages");
    assert "/" + "v1/responses" == "/v1/responses" && "/" + "v1/chat/completions" == "/v1/chat/completions";
    assert "/" + "v1/embeddings" == "/v1/embeddings" && "/" + "v1/messages" == "/v1/messages";
  }

  /** What the OkHttp policy lets through: four POST routes, and the opaque routes of the feature without a query. */
  lemma AllowedRoutes(base: string, t: Target, verb: string, feature: string)
    requires EndsWithSlash(base)
    ensures AllowedRequest(base, t, verb, feature) <==>
      && t.sameOrigin && !t.userInfo && !t.fragment
      && (|| (&& verb == "POST"
              && t.path in {base + "v1/responses", base + "v1/chat/completions", base + "v1/embeddings",
                            base + "v1/messages"})
          || (verb in {"GET", "POST", "PUT", "PATCH", "DELETE"} && !t.query && OpaquePath(base, t.path, feature)))
  {
    hide OpaqueRest, OpaquePath, StartsWith, RemovePrefix;
    StructuredPaths(base, t.path);
    if StartsWith(t.path, base) {
      OpaquePaths(base, t.path, feature);
      if "/" + RemovePrefix(t.path, base) in STRUCTURED {
        StructuredIsNotOpaque("/" + RemovePrefix(t.path, base), feature);
      }
    } else {
      OpaqueStarts(base, t.path, feature);
    }
  }

  lemma OpaqueStarts(base: string, path: string, feature: string)
    ensures OpaquePath(base, path, feature) ==> StartsWith(path, base)
  {
  }

  predicate AgreeOn(base: string, t: Target, verb: string, feature: string) {
    AllowedRequest(base, t, verb, feature) <==> ComponentDestination(base, t, verb, feature)
  }

  /**
   * They agree on all upper-case methods exactly for such base paths; without the slash only the component
   * policy accepts a path that continues the last segment of the base.
   */
  lemma RoutesAgreeIff(base: string)
    ensures (forall t, verb, feature | Upper(verb) == verb :: AgreeOn(base, t, verb, feature)) <==> EndsWithSlash(base)
  {
    hide AllowedRequest, ComponentDestination;
    if EndsWithSlash(base) {
      forall t, verb, feature | Upper(verb) == verb ensures AgreeOn(base, t, verb, feature) {
        RoutesAgree(base, t, verb, feature);
      }
    } else {
      PartWays(base);
    }
  }

  lemma PartWays(base: string)
    requires !EndsWithSlash(base)
    ensures Upper("POST") == "POST"
    ensures !AgreeOn(base, Target(true, false, false, base + "v1/messages", false), "POST", "")
  {
    hide OpaqueRest, Contains;
    var t := Target(true, false, false, base + "v1/messages", false);
    assert t.path[..|base|] == base && t.path[|base|..] == "v1/messages";
    assert "/" + "v1/messages" == "/v1/messages";
  }

  // ---------- Percent-decoding ----------

  /** The octet of an escape at the start of the text, or -1. */
  function EscapeValue(s: string): (v: int)
    ensures -1 <= v < 256
  {
    if |s| >= 3 && s[0] == '%' && HexValue(s[1]) >= 0 && HexValue(s[2]) >= 0
    then HexValue(s[1]) * 16 + HexValue(s[2]) else -1
  }

  /** One round of percent-decoding; what is not an escape stays as it is. */
  function PercentDecode(s: string): string {
    if s == "" then ""
    else if EscapeValue(s) >= 0 then [EscapeValue(s) as char] + PercentDecode(s[3..])
    else [s[0]] + PercentDecode(s[1..])
  }

  predicate EndsWithEncodedSlash(s: string) {
    |s| >= 3 && s[|s| - 3] == '%' && s[|s| - 2] == '2' && s[|s| - 1] in {'f', 'F'}
  }

  /** The digits of an escape are neither a slash nor the start of another escape. */
  lemma EscapeDigits(s: string)
    ensures EscapeValue(s) >= 0 ==> |s| >= 3 && s[0] == '%' && s[1] !in {'%', '/'} && s[2] !in {'%', '/'}
    ensures EscapeValue(s) == 0x2f <==> |s| >= 3 && s[0] == '%' && s[1] == '2' && s[2] in {'f', 'F'}
  {
  }

  /** How many characters decoding takes off the front. */
  function Taken(s: string): (n: nat)
    requires s != ""
    ensures 1 <= n <= |s|
  {
    if EscapeValue(s) >= 0 then 3 else 1
  }

  /** What stays behind ends as the whole did. */
  lemma TailEnds(s: string)
    requires s != "" && Taken(s) < |s|
    ensures EndsWithSlash(s) <==> EndsWithSlash(s[Taken(s)..])
    ensures EndsWithEncodedSlash(s) <==> EndsWithEncodedSlash(s[Taken(s)..])
  {
    hide EscapeValue;
    EscapeDigits(s);
  }

  lemma WholeEnds(s: string)
    requires s != "" && Taken(s) == |s|
    ensures EscapeValue(s) == 0x2f <==> EndsWithEncodedSlash(s)
    ensures EscapeValue(s) < 0 ==> |s| == 1
  {
    hide EscapeValue;
    EscapeDigits(s);
  }

  lemma WholeDecodes(s: string)
    requires s != "" && Taken(s) == |s|
    ensures PercentDecode(s) == [if EscapeValue(s) >= 0 then EscapeValue(s) as char else s[0]]
  {
    hide EscapeValue;
    assert s[Taken(s)..] == "";
  }

  lemma DecodesRest(s: string)
    requires s != "" && Taken(s) < |s|
    ensures PercentDecode(s) != "" && PercentDecode(s)[1..] == PercentDecode(s[Taken(s)..])
  {
    hide EscapeValue;
  }

  lemma {:induction false} LastDecoded(s: string)
    requires s != ""
    ensures PercentDecode(s) != ""
    ensures EndsWithSlash(PercentDecode(s)) <==> EndsWithSlash(s) || EndsWithEncodedSlash(s)
  {
    hide EscapeValue, PercentDecode;
    if Taken(s) == |s| {
      EscapeDigits(s);
      WholeEnds(s);
      WholeDecodes(s);
    } else {
      hide Taken, EndsWithEncodedSlash;
      LastDecoded(s[Taken(s)..]);
      TailEnds(s);
      DecodesRest(s);
      assert PercentDecode(s)[|PercentDecode(s)| - 1] == PercentDecode(s)[1..][|PercentDecode(s)| - 2];
    }
  }

  /** requireBaseUrl looks at the decoded path. */
  predicate ConfigurationAllows(base: string) {
    base == "" || EndsWithSlash(PercentDecode(base))
  }

  /** What the configuration lets through: also an encoded slash at the end, where the policies part ways. */
  lemma ConfiguredBases(base: string)
    requires base != ""
    ensures ConfigurationAllows(base) <==> EndsWithSlash(base) || EndsWithEncodedSlash(base)
    ensures ConfigurationAllows("/a%2F") && !EndsWithSlash("/a%2F")
  {
    LastDecoded(base);
    LastDecoded("/a%2F");
  }

  /** No escape stands for a dot, a slash or a back slash. */
  predicate NoEscapedStructure(s: string) {
    forall i :: 0 <= i <= |s| ==> EscapeValue(s[i..]) !in {0x2e, 0x2f, 0x5c}
  }

  lemma ContainsAt(s: string, i: nat, part: string)
    requires i <= |s| && StartsWith(s[i..], part)
    ensures Contains(s, part)
  {
  }

  /** Three characters that start a text. */
  lemma StartsWithThree(s: string, a: char, b: char, c: char)
    requires |s| >= 3 && s[0] == a && s[1] == b && s[2] == c
    ensures StartsWith(s, [a, b, c])
  {
  }

  lemma HexDigitsOf(b: char, c: char)
    requires HexValue(b) >= 0 && HexValue(c) >= 0
    ensures HexValue(b) * 16 + HexValue(c) == 0x2e ==> LowerChar(b) == '2' && LowerChar(c) == 'e'
    ensures HexValue(b) * 16 + HexValue(c) == 0x2f ==> LowerChar(b) == '2' && LowerChar(c) == 'f'
    ensures HexValue(b) * 16 + HexValue(c) == 0x5c ==> LowerChar(b) == '5' && LowerChar(c) == 'c'
  {
  }

  lemma EscapeIsContained(s: string, i: nat)
    requires i <= |s| && EscapeValue(s[i..]) in {0x2e, 0x2f, 0x5c}
    ensures Contains(Lower(s), "%2e") || Contains(Lower(s), "%2f") || Contains(Lower(s), "%5c")
  {
    hide Contains, HexValue, StartsWith, LowerChar;
    HexDigitsOf(s[i + 1], s[i + 2]);
    var b, c := LowerChar(s[i + 1]), LowerChar(s[i + 2]);
    PercentIsLower();
    StartsWithThree(Lower(s)[i..], '%', b, c);
    ContainsAt(Lower(s), i, ['%', b, c]);
  }

  lemma PercentIsLower()
    ensures LowerChar('%') == '%'
  {
  }

  lemma RestHasNoEscapedStructure(rest: string)
    requires OpaqueRest(rest)
    ensures NoEscapedStructure(rest)
  {
    hide Contains, Lower;
    forall i | 0 <= i <= |rest| ensures EscapeValue(rest[i..]) !in {0x2e, 0x2f, 0x5c} {
      if EscapeValue(rest[i..]) in {0x2e, 0x2f, 0x5c} {
        EscapeIsContained(rest, i);
      }
    }
  }

  lemma StructureOfTail(s: string, k: nat)
    requires NoEscapedStructure(s) && k <= |s|
    ensures NoEscapedStructure(s[k..])
  {
    forall i | 0 <= i <= |s[k..]| ensures EscapeValue(s[k..][i..]) !in {0x2e, 0x2f, 0x5c} {
      assert s[k..][i..] == s[k + i..];
    }
  }

  function DecodeAll(segments: seq<string>): (r: seq<string>)
    ensures |r| == |segments| && forall k :: 0 <= k < |segments| ==> r[k] == PercentDecode(segments[k])
  {
    if segments == [] then [] else [PercentDecode(segments[0])] + DecodeAll(segments[1..])
  }

  /** The first segment is what stands in front of the first slash. */
  lemma {:induction false} FirstSegment(s: string)
    ensures var first := Split(s, '/')[0];
      |first| <= |s| && s[..|first|] == first && (|first| < |s| ==> s[|first|] == '/')
  {
    if s != "" && s[0] != '/' {
      FirstSegment(s[1..]);
      var first := Split(s[1..], '/')[0];
      assert Split(s, '/')[0] == [s[0]] + first;
      assert s[..1 + |first|] == [s[0]] + s[1..][..|first|];
    }
  }

  /** A character that starts no escape decodes to itself, in its segment as in the whole text. */
  lemma PlainInSegment(s: string)
    requires s != "" && s[0] != '/' && EscapeValue(s) < 0
    ensures PercentDecode([s[0]] + Split(s[1..], '/')[0]) == [s[0]] + PercentDecode(Split(s[1..], '/')[0])
  {
    FirstSegment(s[1..]);
    var first := Split(s[1..], '/')[0];
    var piece := [s[0]] + first;
    assert piece[1..] == first;
    assert |first| >= 2 ==> first[0] == s[1..][..|first|][0] == s[1] && first[1] == s[1..][..|first|][1] == s[2];
    assert EscapeValue(piece) < 0;
  }

  lemma EscapeInSegment(s: string)
    requires EscapeValue(s) >= 0
    ensures var rest := Split(s[3..], '/');
      && Split(s, '/') == [s[..3] + rest[0]] + rest[1..]
      && PercentDecode(s[..3] + rest[0]) == [EscapeValue(s) as char] + PercentDecode(rest[0])
  {
    var rest := Split(s[3..], '/');
    assert s[1..][1..] == s[2..] && s[2..][1..] == s[3..];
    assert s[1] != '/' && s[2] != '/';
    assert Split(s[2..], '/') == [[s[2]] + rest[0]] + rest[1..];
    assert Split(s[1..], '/') == [[s[1]] + ([s[2]] + rest[0])] + rest[1..];
    assert [s[0]] + ([s[1]] + ([s[2]] + rest[0])) == s[..3] + rest[0];
    assert (s[..3] + rest[0])[3..] == rest[0];
    assert EscapeValue(s[..3] + rest[0]) == EscapeValue(s);
  }

  /** Decoding keeps the segments apart and decodes each on its own. */
  lemma {:induction false} DecodeSplits(s: string)
    requires NoEscapedStructure(s)
    ensures Split(PercentDecode(s), '/') == DecodeAll(Split(s, '/'))
    decreases |s|
  {
    assert s[0..] == s;
    if s == "" {
    } else if EscapeValue(s) >= 0 {
      StructureOfTail(s, 3);
      DecodeSplits(s[3..]);
      EscapeInSegment(s);
      var c, tail, rest := EscapeValue(s) as char, PercentDecode(s[3..]), Split(s[3..], '/');
      assert ([c] + tail)[1..] == tail && c != '/';
      assert DecodeAll(Split(s, '/'))[1..] == DecodeAll(rest)[1..];
    } else {
      StructureOfTail(s, 1);
      DecodeSplits(s[1..]);
      var tail, rest := PercentDecode(s[1..]), Split(s[1..], '/');
      assert ([s[0]] + tail)[1..] == tail;
      if s[0] != '/' {
        PlainInSegment(s);
        assert DecodeAll(Split(s, '/'))[1..] == DecodeAll(rest)[1..];
      }
    }
  }

  /** A segment that is not empty or a dot segment does not decode to one. */
  lemma DecodedNotDots(segment: string)
    requires NoEscapedStructure(segment) && segment != "" && !IsDots(segment)
    ensures PercentDecode(segment) != "" && !IsDots(PercentDecode(segment))
  {
    assert segment[0..] == segment;
    if PercentDecode(segment)[0] == '.' {
      assert segment[0] == '.' && PercentDecode(segment)[1..] == PercentDecode(segment[1..]);
      if segment[1..] != "" && PercentDecode(segment[1..])[0] == '.' {
        StructureOfTail(segment, 1);
        assert segment[1..][0..] == segment[1..];
        assert PercentDecode(segment[1..])[1..] == PercentDecode(segment[1..][1..]);
        assert segment == [segment[0]] + segment[1..];
      }
    }
  }

  lemma {:induction false} DecodedLacks(s: string)
    requires NoEscapedStructure(s) && Lacks(s, '\\')
    ensures Lacks(PercentDecode(s), '\\')
    decreases |s|
  {
    assert s[0..] == s;
    if s != "" {
      var k := if EscapeValue(s) >= 0 then 3 else 1;
      StructureOfTail(s, k);
      DecodedLacks(s[k..]);
    }
  }

  // ---------- Dot segments ----------

  /** Where the first path segment, with its leading slash, ends. */
  function SegmentEnd(input: string): (k: nat)
    requires input != ""
    ensures 1 <= k <= |input|
  {
    FirstSegment(input[1..]);
    1 + |Split(input[1..], '/')[0]|
  }

  function DropLastSegment(output: string): string {
    if output == "" then "" else if output[|output| - 1] == '/' then output[..|output| - 1]
    else DropLastSegment(output[..|output| - 1])
  }

  /** remove_dot_segments of section 5.2.4, with its input and output buffers. */
  function RemoveDotSegments(input: string, output: string): string
    decreases |input|
  {
    if input == "" then output
    else if StartsWith(input, "../") then RemoveDotSegments(input[3..], output)
    else if StartsWith(input, "./") then RemoveDotSegments(input[2..], output)
    else if StartsWith(input, "/./") then RemoveDotSegments(input[2..], output)
    else if input == "/." then RemoveDotSegments("/", output)
    else if StartsWith(input, "/../") then RemoveDotSegments(input[3..], DropLastSegment(output))
    else if input == "/.." then RemoveDotSegments("/", DropLastSegment(output))
    else if input == "." || input == ".." then RemoveDotSegments("", output)
    else
      var k := SegmentEnd(input);
      RemoveDotSegments(input[k..], output + input[..k])
  }

  /** The absolute path with the given segments. */
  function Path(segments: seq<string>): string {
    if segments == [] then "" else "/" + segments[0] + Path(segments[1..])
  }

  predicate NoDots(segments: seq<string>) {
    forall k :: 0 <= k < |segments| ==> !IsDots(segments[k]) && Lacks(segments[k], '/')
  }

  /** A path that starts with an ordinary segment is not caught by any rule for dot segments. */
  lemma OrdinaryFirst(segment: string, tail: string)
    requires !IsDots(segment) && Lacks(segment, '/') && (tail == "" || tail[0] == '/')
    ensures var input := "/" + segment + tail;
      && !StartsWith(input, "../") && !StartsWith(input, "./") && !StartsWith(input, "/./") && !StartsWith(input, "/../")
      && input != "/." && input != "/.." && input != "." && input != ".."
  {
    var input := "/" + segment + tail;
    AtConcat("/" + segment, tail, 1);
    AtConcat("/" + segment, tail, 2);
    AtConcat("/" + segment, tail, 3);
    AtConcat("/", segment, 1);
    AtConcat("/", segment, 2);
    AtConcat("/", segment, 3);
    assert At(input, 0) == '/' as int;
    assert |segment| == 1 ==> segment == [segment[0]];
    assert |segment| == 2 ==> segment == [segment[0], segment[1]];
  }

  lemma {:induction false} PathStarts(segments: seq<string>)
    ensures Path(segments) == "" || Path(segments)[0] == '/'
  {
  }

  lemma OrdinaryEnd(segment: string, tail: string)
    requires Lacks(segment, '/') && (tail == "" || tail[0] == '/')
    ensures SegmentEnd("/" + segment + tail) == 1 + |segment|
  {
    var rest := segment + tail;
    assert ("/" + segment + tail)[1..] == rest;
    if tail == "" {
      assert rest == segment;
      SplitOnly(segment, '/');
    } else {
      assert rest == segment + ['/'] + tail[1..];
      SplitFirst(segment, '/', tail[1..]);
    }
  }

  /** Removing dot segments changes nothing where there are none. */
  lemma {:induction false} NothingRemoved(segments: seq<string>, output: string)
    requires NoDots(segments)
    ensures RemoveDotSegments(Path(segments), output) == output + Path(segments)
  {
    hide StartsWith, SegmentEnd;
    if segments != [] {
      var segment, tail := segments[0], Path(segments[1..]);
      var input := "/" + segment + tail;
      PathStarts(segments[1..]);
      OrdinaryFirst(segment, tail);
      OrdinaryEnd(segment, tail);
      assert input[1 + |segment|..] == tail && input[..1 + |segment|] == "/" + segment;
      NothingRemoved(segments[1..], output + ("/" + segment));
      assert output + ("/" + segment) + tail == output + input;
    }
  }

  lemma {:induction false} JoinIsPath(segments: seq<string>)
    requires segments != []
    ensures "/" + Join(segments, '/') == Path(segments)
  {
    if |segments| > 1 {
      JoinIsPath(segments[1..]);
    }
  }

  predicate IsFeature(feature: string) {
    && 1 <= |feature| <= 63 && 'a' <= feature[0] <= 'z'
    && forall i :: 0 <= i < |feature| ==>
         'a' <= feature[i] <= 'z' || '0' <= feature[i] <= '9' || feature[i] == '_' || feature[i] == '-'
  }

  lemma RelativeIsPath(feature: string, rest: string)
    ensures OpaquePrefix(feature) + rest == Path(["proxy", feature] + Split(rest, '/'))
  {
    JoinSplit(rest, '/');
    JoinIsPath(Split(rest, '/'));
    PathStep(feature, Split(rest, '/'));
    PathStep("proxy", [feature] + Split(rest, '/'));
    assert ["proxy"] + ([feature] + Split(rest, '/')) == ["proxy", feature] + Split(rest, '/');
    hide Path, Split, Join;
    assert "/proxy" + ("/" + feature + ("/" + rest)) == OpaquePrefix(feature) + rest;
  }

  lemma PathStep(segment: string, segments: seq<string>)
    ensures Path([segment] + segments) == "/" + segment + Path(segments)
  {
    assert ([segment] + segments)[1..] == segments;
  }

  lemma FeatureNoDots(feature: string, segments: seq<string>)
    requires IsFeature(feature) && NoDots(segments)
    ensures NoDots(["proxy", feature] + segments)
  {
    var all := ["proxy", feature] + segments;
    forall k | 0 <= k < |all| ensures !IsDots(all[k]) && Lacks(all[k], '/') {
      if k >= 2 {
        assert all[k] == segments[k - 2];
      }
    }
  }

  /** A path below the feature's prefix whose segments are no dot segments is left alone. */
  lemma BelowFeatureIsFixed(feature: string, rest: string)
    requires IsFeature(feature) && NoDots(Split(rest, '/'))
    ensures RemoveDotSegments(OpaquePrefix(feature) + rest, "") == OpaquePrefix(feature) + rest
  {
    hide IsFeature, NoDots, RemoveDotSegments, OpaquePrefix;
    RelativeIsPath(feature, rest);
    FeatureNoDots(feature, Split(rest, '/'));
    NothingRemoved(["proxy", feature] + Split(rest, '/'), "");
  }

  lemma SegmentStructure(rest: string, k: nat)
    requires NoEscapedStructure(rest) && k < |Split(rest, '/')|
    ensures NoEscapedStructure(Split(rest, '/')[k])
    decreases |rest|
  {
    if k == 0 {
      FirstSegmentStructure(rest);
    } else {
      var first := Split(rest, '/')[0];
      FirstSegment(rest);
      MoreSegments(rest);
      StructureOfTail(rest, |first| + 1);
      SegmentStructure(rest[|first| + 1..], k - 1);
    }
  }

  lemma {:induction false} MoreSegments(s: string)
    requires |Split(s, '/')| > 1
    ensures var first := Split(s, '/')[0];
      |first| < |s| && Split(s, '/')[1..] == Split(s[|first| + 1..], '/')
  {
    if s[0] == '/' {
      assert Split(s, '/')[1..] == Split(s[1..], '/');
    } else {
      MoreSegments(s[1..]);
      var first := Split(s[1..], '/')[0];
      assert s[1..][|first| + 1..] == s[|first| + 2..];
      assert Split(s, '/')[1..] == Split(s[1..], '/')[1..];
    }
  }

  /** An escape inside the first segment is an escape of the text. */
  lemma FirstSegmentStructure(s: string)
    requires NoEscapedStructure(s)
    ensures NoEscapedStructure(Split(s, '/')[0])
  {
    FirstSegment(s);
    var first := Split(s, '/')[0];
    forall i | 0 <= i <= |first| ensures EscapeValue(first[i..]) !in {0x2e, 0x2f, 0x5c} {
      if EscapeValue(first[i..]) >= 0 {
        var whole := s[i..];
        assert whole[0] == s[..|first|][i] && whole[1] == s[..|first|][i + 1] && whole[2] == s[..|first|][i + 2];
        assert EscapeValue(whole) == EscapeValue(first[i..]);
        assert EscapeValue(s[i..]) !in {0x2e, 0x2f, 0x5c};
      }
    }
  }

  lemma AcceptedSegments(rest: string)
    requires OpaqueRest(rest)
    ensures NoDots(Split(rest, '/')) && NoDots(DecodeAll(Split(rest, '/')))
    ensures forall k :: 0 <= k < |Split(rest, '/')| ==> DecodeAll(Split(rest, '/'))[k] != ""
    ensures Split(PercentDecode(rest), '/') == DecodeAll(Split(rest, '/'))
  {
    hide Contains, PercentDecode, Lower;
    var segments := Split(rest, '/');
    RestHasNoEscapedStructure(rest);
    JoinSplit(rest, '/');
    DecodeSplits(rest);
    JoinSplit(PercentDecode(rest), '/');
    forall k | 0 <= k < |segments| ensures DecodeAll(segments)[k] != "" && !IsDots(DecodeAll(segments)[k]) {
      SegmentStructure(rest, k);
      DecodedNotDots(segments[k]);
    }
  }

  /**
   * An accepted opaque path means the same to everyone downstream: decoding it once keeps its segments and
   * decodes each on its own, none becomes empty or a dot segment, no back slash appears, and dot-segment
   * removal leaves the path alone before and after decoding, below its feature's prefix.
   */
  lemma OpaqueIsStable(feature: string, rest: string)
    requires IsFeature(feature) && OpaqueRest(rest)
    ensures Split(PercentDecode(rest), '/') == DecodeAll(Split(rest, '/'))
    ensures forall k :: 0 <= k < |Split(rest, '/')| ==>
      DecodeAll(Split(rest, '/'))[k] != "" && !IsDots(DecodeAll(Split(rest, '/'))[k])
    ensures Lacks(PercentDecode(rest), '\\')
    ensures RemoveDotSegments(OpaquePrefix(feature) + rest, "") == OpaquePrefix(feature) + rest
    ensures RemoveDotSegments(OpaquePrefix(feature) + PercentDecode(rest), "") == OpaquePrefix(feature) + PercentDecode(rest)
  {
    hide Contains, PercentDecode, Lower, RemoveDotSegments, OpaquePrefix, IsFeature;
    AcceptedSegments(rest);
    RestHasNoEscapedStructure(rest);
    DecodedLacks(rest);
    BelowFeatureIsFixed(feature, rest);
    BelowFeatureIsFixed(feature, PercentDecode(rest));
  }
}
