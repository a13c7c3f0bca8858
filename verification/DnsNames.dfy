/** Names in the zone (register_private_dns.py): absolute names, labels, and which A records
    the script regards as its own. */
module DnsNames {
  import opened Wrappers
  import opened PythonText

  predicate IsLabelChar(c: char) {
    'a' <= c <= 'z' || '0' <= c <= '9'
  }

  /** The pattern [a-z0-9](?:[a-z0-9-]{0,61}[a-z0-9])? */
  predicate IsDnsLabel(s: string) {
    && 1 <= |s| <= 63
    && IsLabelChar(s[0]) && IsLabelChar(s[|s| - 1])
    && forall i :: 0 <= i < |s| ==> IsLabelChar(s[i]) || s[i] == '-'
  }

  function Clean(s: string): string {
    StripDots(Lower(Strip(s)))
  }

  function NormalizeZone(value: string): Option<string> {
    var body := Clean(value);
    var labels := SplitDots(body);
    if body == "" || exists l :: l in labels && !IsDnsLabel(l) then None else Some(body + ".")
  }

  function AbsoluteName(name: string, zone: string): string {
    var cleaned, body := Clean(name), Clean(zone);
    if cleaned == body || EndsWith(cleaned, "." + body) then cleaned + "." else cleaned + "." + body + "."
  }

  function ManagedLabel(fqdn: string, zone: string, prefixes: seq<string>): Option<string> {
    var absolute, suffix := AbsoluteName(fqdn, zone), "." + Clean(zone) + ".";
    if !EndsWith(absolute, suffix) then None
    else
      var parts := SplitDots(absolute[..|absolute| - |suffix|]);
      if |parts| != 2 || parts[1] !in prefixes || !IsDnsLabel(parts[0]) then None else Some(parts[0])
  }

  predicate Managed(fqdn: string, zone: string, prefixes: seq<string>) {
    ManagedLabel(fqdn, zone, prefixes).Some?
  }

  /** A zone name as `normalize_zone` returns it, and prefixes as `parse_prefixes` does. */
  predicate IsZone(zone: string) {
    NormalizeZone(zone) == Some(zone)
  }

  predicate GoodPrefixes(prefixes: seq<string>) {
    && (forall p :: p in prefixes ==> IsDnsLabel(p))
    && (forall i, j :: 0 <= i < j < |prefixes| ==> prefixes[i] != prefixes[j])
  }

  function Fqdn(host: string, prefix: string, zone: string): string {
    host + "." + prefix + "." + zone
  }

  // ---------- names made of lower-case labels are already clean ----------

  predicate IsNameChar(c: char) {
    IsLabelChar(c) || c == '-' || c == '.'
  }

  predicate IsName(s: string) {
    forall i :: 0 <= i < |s| ==> IsNameChar(s[i])
  }

  lemma NameIsPlain(s: string)
    requires IsName(s)
    ensures Lower(Strip(s)) == s
  {
    StripNothing(s);
    LowerNothing(s);
  }

  lemma OneDot(s: string)
    requires s != "" && s[|s| - 1] != '.'
    ensures StripDots(s + ".") == s && StripDots(s) == s
  {
    assert (s + ".")[..|s|] == s;
  }

  lemma {:induction false} LabelsAreName(s: string)
    requires forall l :: l in SplitDots(s) ==> IsDnsLabel(l)
    ensures IsName(s) && s != "" && s[|s| - 1] != '.'
    decreases |s|
  {
    if '.' in s {
      var k := FirstDot(s);
      SplitFirst(s[..k], s[k + 1..]);
      assert s == s[..k] + "." + s[k + 1..];
      assert SplitDots(s)[0] == s[..k];
      assert forall l :: l in SplitDots(s[k + 1..]) ==> l in SplitDots(s);
      LabelsAreName(s[k + 1..]);
      assert s[..k] in SplitDots(s);
      forall i | 0 <= i < |s|
        ensures IsNameChar(s[i])
      {
        if i < k {
          assert s[i] == s[..k][i];
        } else if i > k {
          assert s[i] == s[k + 1..][i - k - 1];
        }
      }
    } else {
      SplitNone(s);
      assert s in SplitDots(s);
    }
  }

  lemma FirstDot(s: string) returns (k: nat)
    requires '.' in s
    ensures k < |s| && s[k] == '.' && '.' !in s[..k]
  {
    k := 0;
    while s[k] != '.'
      invariant k < |s| && '.' !in s[..k] && '.' in s[k..]
      decreases |s| - k
    {
      assert s[..k + 1] == s[..k] + [s[k]];
      assert s[k..] == [s[k]] + s[k + 1..];
      k := k + 1;
    }
  }

  /** A normalized zone is a clean body and one dot. */
  lemma ZoneParts(zone: string)
    requires IsZone(zone)
    ensures zone == Clean(zone) + "." && IsName(Clean(zone)) && Clean(zone) != "" &&
            Clean(zone)[|Clean(zone)| - 1] != '.'
  {
    LabelsAreName(Clean(zone));
  }

  lemma LabelIsName(l: string)
    requires IsDnsLabel(l)
    ensures IsName(l) && '.' !in l && l != ""
  {
  }

  lemma CleanFqdn(host: string, prefix: string, zone: string)
    requires IsZone(zone) && IsDnsLabel(host) && IsDnsLabel(prefix)
    ensures Clean(Fqdn(host, prefix, zone)) == host + "." + prefix + "." + Clean(zone)
    ensures Fqdn(host, prefix, zone) == host + "." + prefix + "." + Clean(zone) + "."
  {
    hide IsDnsLabel, Clean, IsZone;
    LabelIsName(host);
    LabelIsName(prefix);
    ZoneParts(zone);
    var name := host + "." + prefix + "." + Clean(zone);
    assert Fqdn(host, prefix, zone) == name + ".";
    CleanName(name);
  }

  lemma CleanName(name: string)
    requires IsName(name) && name != "" && name[|name| - 1] != '.'
    ensures Clean(name + ".") == name
  {
    NameIsPlain(name + ".");
    OneDot(name);
  }

  /** Every name the script forms is recognised as its own, with the right label: the
      planner sees each record it has ever written. */
  lemma ManagedRecovers(host: string, prefix: string, zone: string, prefixes: seq<string>)
    requires IsZone(zone) && IsDnsLabel(host) && IsDnsLabel(prefix) && prefix in prefixes
    ensures AbsoluteName(Fqdn(host, prefix, zone), zone) == Fqdn(host, prefix, zone)
    ensures ManagedLabel(Fqdn(host, prefix, zone), zone, prefixes) == Some(host)
  {
    hide IsDnsLabel, Clean, IsZone;
    var body, fqdn := Clean(zone), Fqdn(host, prefix, zone);
    CleanFqdn(host, prefix, zone);
    var cleaned := host + "." + prefix + "." + body;
    assert cleaned[|cleaned| - |"." + body|..] == "." + body;
    assert fqdn == cleaned + ".";
    var suffix := "." + body + ".";
    var relative := host + "." + prefix;
    assert fqdn == relative + suffix;
    assert fqdn[|fqdn| - |suffix|..] == suffix && fqdn[..|fqdn| - |suffix|] == relative;
    LabelIsName(host);
    LabelIsName(prefix);
    SplitFirst(host, prefix);
    SplitNone(prefix);
  }

  lemma DotSplits(s: string)
    requires '.' in s
    ensures |SplitDots(s)| >= 2
  {
    var m := FirstDot(s);
    SplitFirst(s[..m], s[m + 1..]);
    assert s == s[..m] + "." + s[m + 1..];
  }

  lemma TwoParts(s: string)
    requires |SplitDots(s)| == 2
    ensures s == SplitDots(s)[0] + "." + SplitDots(s)[1]
  {
    if '.' in s {
      var k := FirstDot(s);
      var rest := s[k + 1..];
      SplitFirst(s[..k], rest);
      assert s == s[..k] + "." + rest;
      if '.' in rest {
        DotSplits(rest);
      } else {
        SplitNone(rest);
      }
    } else {
      SplitNone(s);
    }
  }

  /** And only such names: whatever the planner may change or delete has the form
      label.prefix.zone with one of the prefixes. */
  lemma ManagedIsFqdn(fqdn: string, zone: string, prefixes: seq<string>) returns (prefix: string)
    requires IsZone(zone) && Managed(fqdn, zone, prefixes)
    ensures prefix in prefixes && IsDnsLabel(ManagedLabel(fqdn, zone, prefixes).value)
    ensures AbsoluteName(fqdn, zone) == Fqdn(ManagedLabel(fqdn, zone, prefixes).value, prefix, zone)
  {
    hide IsDnsLabel, Clean, IsZone, AbsoluteName;
    ZoneParts(zone);
    var absolute, suffix := AbsoluteName(fqdn, zone), "." + Clean(zone) + ".";
    var relative := absolute[..|absolute| - |suffix|];
    TwoParts(relative);
    prefix := SplitDots(relative)[1];
    assert absolute == relative + suffix;
    assert suffix == "." + zone;
  }

  /** Two different pairs of server label and prefix never share a name. */
  lemma FqdnIsInjective(host: string, prefix: string, host': string, prefix': string, zone: string)
    requires IsDnsLabel(host) && IsDnsLabel(prefix) && IsDnsLabel(host') && IsDnsLabel(prefix')
    requires Fqdn(host, prefix, zone) == Fqdn(host', prefix', zone)
    ensures host == host' && prefix == prefix'
  {
    hide IsDnsLabel;
    LabelIsName(host);
    LabelIsName(prefix);
    LabelIsName(host');
    LabelIsName(prefix');
    var fqdn := Fqdn(host, prefix, zone);
    assert fqdn == host + "." + (prefix + "." + zone) == host' + "." + (prefix' + "." + zone);
    SplitFirst(host, prefix + "." + zone);
    SplitFirst(host', prefix' + "." + zone);
    SplitFirst(prefix, zone);
    SplitFirst(prefix', zone);
    assert SplitDots(fqdn)[0] == host == host';
    assert SplitDots(fqdn)[1] == prefix == prefix';
  }

  lemma StableForm(s: string, zone: string)
    requires Clean(s + ".") == s && (s == Clean(zone) || EndsWith(s, "." + Clean(zone)))
    ensures AbsoluteName(s + ".", zone) == s + "."
  {
    hide Clean, EndsWith;
  }

  lemma EndsWithTail(s: string, tail: string)
    ensures EndsWith(s + tail, tail)
  {
  }

  /** An absolute name is its own absolute name. */
  lemma AbsoluteIsStable(name: string, zone: string)
    requires IsZone(zone)
    ensures AbsoluteName(AbsoluteName(name, zone), zone) == AbsoluteName(name, zone)
  {
    hide IsDnsLabel, IsZone, Clean, IsName;
    var body, cleaned := Clean(zone), Clean(name);
    ZoneParts(zone);
    if cleaned == body || EndsWith(cleaned, "." + body) {
      hide EndsWith;
      CleanEnds(cleaned, body);
      CleanAgain(name, "");
      assert cleaned + "" == cleaned;
      StableForm(cleaned, zone);
    } else {
      hide EndsWith;
      DotName(body);
      CleanAgain(name, "." + body);
      EndsWithTail(cleaned, "." + body);
      assert cleaned + ("." + body) == cleaned + "." + body;
      StableForm(cleaned + "." + body, zone);
    }
  }

  lemma CleanEnds(cleaned: string, body: string)
    requires body != "" && body[|body| - 1] != '.'
    requires cleaned == body || EndsWith(cleaned, "." + body)
    ensures cleaned != "" && cleaned[|cleaned| - 1] != '.'
    ensures IsName("")
  {
    if cleaned != body {
      assert cleaned[|cleaned| - 1] == ("." + body)[|body|];
    }
  }

  lemma DotName(body: string)
    requires IsName(body) && body != "" && body[|body| - 1] != '.'
    ensures IsName("." + body) && ("." + body)[|"." + body| - 1] != '.'
  {
  }

  /** Cleaning a cleaned name with a name and a dot put after it gives the two back. */
  lemma CleanAgain(name: string, tail: string)
    requires IsName(tail) && (tail == "" ==> Clean(name) != "" && Clean(name)[|Clean(name)| - 1] != '.')
    requires tail != "" ==> tail[|tail| - 1] != '.'
    ensures Clean(Clean(name) + tail + ".") == Clean(name) + tail
  {
    var s := Clean(name) + tail;
    StripEnds(name);
    assert Clean(name) <= Lower(Strip(name));
    assert Clean(name) != "" ==> !IsSpace(Clean(name)[0]);
    StripNothing(s + ".");
    LowerNothing(s + ".");
    OneDot(s);
  }
}
