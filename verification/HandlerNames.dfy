/** The names of generated wrappers and of lowered service helpers. */
module HandlerNames {
  import opened Wrappers

  predicate IsAsciiAlphanumeric(c: char) {
    'a' <= c <= 'z' || 'A' <= c <= 'Z' || '0' <= c <= '9'
  }

  function ToAsciiLower(c: char): char {
    if 'A' <= c <= 'Z' then (c as int + 32) as char else c
  }

  /** Letters and digits in lower case; anything else becomes an underscore. */
  function SanitizeRuntimeName(name: string): (r: string)
    ensures |r| == |name|
  {
    seq(|name|, k requires 0 <= k < |name| => if IsAsciiAlphanumeric(name[k]) then ToAsciiLower(name[k]) else '_')
  }

  predicate IsAsciiUpper(c: char) { 'A' <= c <= 'Z' }

  /** The same, up to case, or neither a letter nor a digit. */
  predicate Alike(c: char, d: char) {
    || c == d
    || (IsAsciiUpper(c) && d as int == c as int + ('a' as int - 'A' as int))
    || (IsAsciiUpper(d) && c as int == d as int + ('a' as int - 'A' as int))
    || (!IsAsciiAlphanumeric(c) && !IsAsciiAlphanumeric(d))
  }

  /** Which names share a sanitised form: names that differ in case and in characters that are neither
      letters nor digits. */
  lemma SanitizedAlike(a: string, b: string)
    ensures SanitizeRuntimeName(a) == SanitizeRuntimeName(b) <==>
      |a| == |b| && forall k | 0 <= k < |a| :: Alike(a[k], b[k])
  {
    var x, y := SanitizeRuntimeName(a), SanitizeRuntimeName(b);
    if |a| == |b| {
      forall k | 0 <= k < |a| ensures Alike(a[k], b[k]) <==> x[k] == y[k] {
      }
    }
  }

  const WORK_PREFIX := "__declared_work_"
  const SERVICE_CALL_PREFIX := "__declared_service_call_"
  const SERVICE_CAST_PREFIX := "__declared_service_cast_"

  function ActorBodyName(wrapper: string): string {
    "__actor_" + wrapper + "_body"
  }

  // ---- Cutting strings ----

  predicate StartsWith(s: string, prefix: string) {
    |prefix| <= |s| && s[..|prefix|] == prefix
  }

  predicate OccursAt(s: string, k: nat, pat: string) {
    k + |pat| <= |s| && s[k..k + |pat|] == pat
  }

  /** The first position from `i` on at which `pat` occurs. */
  function FindText(s: string, i: nat, pat: string): (at: Option<nat>)
    requires i <= |s|
    ensures at.Some? ==> i <= at.value && OccursAt(s, at.value, pat)
    ensures at.Some? ==> forall k | i <= k < at.value :: !OccursAt(s, k, pat)
    ensures at.None? ==> forall k | i <= k :: !OccursAt(s, k, pat)
    decreases |s| - i
  {
    if OccursAt(s, i, pat) then Some(i)
    else if i == |s| then None
    else FindText(s, i + 1, pat)
  }

  ghost predicate Contains(s: string, pat: string) {
    exists k: nat :: OccursAt(s, k, pat)
  }

  /** `split_once`: around the first occurrence. */
  function SplitOnce(s: string, pat: string): (r: Option<(string, string)>)
    ensures r.Some? <==> Contains(s, pat)
    ensures r.Some? ==> s == r.value.0 + pat + r.value.1
    ensures r.Some? ==> forall k: nat | k < |r.value.0| :: !OccursAt(s, k, pat)
  {
    match FindText(s, 0, pat)
    case None => None
    case Some(k) => Some((s[..k], s[k + |pat|..]))
  }

  /** The text after the last underscore. */
  function LastSegment(s: string): (r: Option<string>)
    ensures r.None? <==> '_' !in s
    ensures r.Some? ==> '_' !in r.value && |r.value| < |s| && s[|s| - |r.value| - 1..] == "_" + r.value
    decreases |s|
  {
    if s == "" then None
    else
      var front, last := s[..|s| - 1], s[|s| - 1];
      assert s == front + [last];
      if last == '_' then Some("")
      else
        var r := LastSegment(front);
        if r.None? then None
        else
          assert s[|s| - |r.value| - 2..] == front[|front| - |r.value| - 1..] + [last];
          Some(r.value + [last])
  }

  /** `rsplit_once('_')`: around the last underscore. */
  function RsplitOnce(s: string): (r: Option<(string, string)>)
    ensures r.Some? <==> '_' in s
    ensures r.Some? ==> s == r.value.0 + "_" + r.value.1 && '_' !in r.value.1
  {
    match LastSegment(s)
    case None => None
    case Some(last) =>
      assert s == s[..|s| - |last| - 1] + s[|s| - |last| - 1..];
      Some((s[..|s| - |last| - 1], last))
  }

  const HELPER_PREFIX := "__service_"

  /** Service name and kind ("start", "call" or "cast") of a lowered helper. */
  function ParseServiceHelperName(symbol: string): Option<(string, string)> {
    if !StartsWith(symbol, HELPER_PREFIX) then None
    else
      var rest := symbol[|HELPER_PREFIX|..];
      match RsplitOnce(rest)
      case None => None
      case Some((service, suffix)) =>
        if suffix == "start" then Some((service, "start"))
        else
          match SplitOnce(rest, "_call_")
          case Some((svc, _)) => Some((svc, "call"))
          case None =>
            match SplitOnce(rest, "_cast_")
            case Some((svc, _)) => Some((svc, "cast"))
            case None => None
  }

  /** What the kind of a helper name depends on: "start" wins over everything, "call" over "cast",
      wherever in the name they occur. */
  lemma HelperKind(rest: string)
    ensures var parsed := ParseServiceHelperName(HELPER_PREFIX + rest);
      var last := LastSegment(rest);
      && (parsed.Some? && parsed.value.1 == "start" <==> last == Some("start"))
      && (parsed.Some? && parsed.value.1 == "call" <==> last != Some("start") && Contains(rest, "_call_"))
      && (parsed.Some? && parsed.value.1 == "cast" <==>
            last != Some("start") && !Contains(rest, "_call_") && Contains(rest, "_cast_"))
  {
    assert (HELPER_PREFIX + rest)[|HELPER_PREFIX|..] == rest;
    UnderscoreIn(rest, "_call_");
    UnderscoreIn(rest, "_cast_");
  }

  lemma UnderscoreIn(s: string, pat: string)
    requires pat != "" && pat[0] == '_'
    ensures Contains(s, pat) ==> '_' in s
  {
    if k: nat :| OccursAt(s, k, pat) {
      assert s[k] == s[k..k + |pat|][0] == '_';
    }
  }

  lemma ContainsMiddle(a: string, pat: string, b: string)
    ensures Contains(a + pat + b, pat)
  {
    assert OccursAt(a + pat + b, |a|, pat);
  }

  /** The last segment is what follows the last underscore. */
  lemma LastSegmentOf(a: string, b: string)
    requires '_' !in b
    ensures LastSegment(a + "_" + b) == Some(b)
  {
    var s := a + "_" + b;
    assert s[|a|] == '_';
    var found := LastSegment(s).value;
    var i := |s| - |found| - 1;
    assert s[i..][0] == '_' && s[i..][1..] == found;
    assert s[|a| + 1..] == b;
    SameTail(s, |a|, i);
    SameTail(s, i, |a|);
  }

  lemma SameTail(s: string, i: nat, j: nat)
    requires i < |s| && j < |s| && s[j] == '_'
    ensures i < j ==> '_' in s[i + 1..]
  {
    if i < j {
      assert s[i + 1..][j - i - 1] == '_';
    }
  }

  /** The helper of a cast whose method name contains `_call_` is taken for a call. */
  lemma CastTakenForCall(service: string, a: string, b: string)
    requires LastSegment(service + "_cast_" + a + "_call_" + b) != Some("start")
    ensures var parsed := ParseServiceHelperName(HELPER_PREFIX + (service + "_cast_" + a + "_call_" + b));
      parsed.Some? && parsed.value.1 == "call"
  {
    var rest := service + "_cast_" + a + "_call_" + b;
    HelperKind(rest);
    ContainsMiddle(service + "_cast_" + a, "_call_", b);
  }

  /** The helper of a call to a method named `start` is taken for the service's start. */
  lemma CallTakenForStart(service: string)
    ensures var parsed := ParseServiceHelperName(HELPER_PREFIX + (service + "_call_start"));
      parsed.Some? && parsed.value.1 == "start"
  {
    var rest := service + "_call_start";
    LastSegmentOf(service + "_call", "start");
    assert rest == (service + "_call") + "_" + "start";
    HelperKind(rest);
  }
}
