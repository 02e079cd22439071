/** Signal names as users write them (src/signals.rs and parse_signal in src/cli.rs). */
module SignalNames {
  import opened Results
  import opened Text

  const SIGNAL_NAMES: seq<string> := [
    "HUP", "INT", "QUIT", "ILL", "TRAP", "ABRT", "BUS", "FPE", "KILL", "USR1",
    "SEGV", "USR2", "PIPE", "ALRM", "TERM", "CONT", "WINCH", "TSTP", "TTIN", "TTOU"]

  function AsciiLower(c: char): char {
    if 'A' <= c <= 'Z' then (c as int + 32) as char else c
  }

  predicate EqIgnoreAsciiCase(a: string, b: string) {
    |a| == |b| && forall i :: 0 <= i < |a| ==> AsciiLower(a[i]) == AsciiLower(b[i])
  }

  function FindName(candidate: string, from: nat): (name: Option<string>)
    requires from <= |SIGNAL_NAMES|
    ensures name.Some? ==> name.value in SIGNAL_NAMES && EqIgnoreAsciiCase(name.value, candidate)
    ensures name.None? ==> forall i :: from <= i < |SIGNAL_NAMES| ==> !EqIgnoreAsciiCase(SIGNAL_NAMES[i], candidate)
    decreases |SIGNAL_NAMES| - from, candidate
  {
    if from == |SIGNAL_NAMES| then None
    else if EqIgnoreAsciiCase(SIGNAL_NAMES[from], candidate) then Some(SIGNAL_NAMES[from])
    else FindName(candidate, from + 1)
  }

  function CanonicalSignalName(raw: string): Option<string> {
    var trimmed := Trim(raw);
    if |trimmed| >= 3 && EqIgnoreAsciiCase(trimmed[..3], "SIG") then FindName(trimmed[3..], 0)
    else if trimmed != "" then FindName(trimmed, 0)
    else None
  }

  /** The name in its canonical form, or None when it is empty or not supported. */
  function ParseSignal(raw: string): Option<string> {
    var trimmed := Trim(raw);
    if trimmed == "" then None
    else
      match CanonicalSignalName(trimmed)
      case Some(name) => Some("SIG" + name)
      case None => None
  }

  predicate IsNameChar(c: char) {
    'A' <= c <= 'Z' || c == '1' || c == '2'
  }

  lemma NamesArePlain(i: nat)
    requires i < |SIGNAL_NAMES|
    ensures SIGNAL_NAMES[i] != "" && forall c <- SIGNAL_NAMES[i] :: IsNameChar(c)
  {
  }

  lemma UpperCaseIsDistinct(a: string, b: string)
    requires (forall c <- a :: IsNameChar(c)) && (forall c <- b :: IsNameChar(c))
    requires EqIgnoreAsciiCase(a, b)
    ensures a == b
  {
    forall i | 0 <= i < |a|
      ensures a[i] == b[i]
    {
      assert a[i] in a && b[i] in b;
    }
  }

  /** The table finds every supported name in any letter case. */
  lemma FindsEveryName(i: nat, raw: string)
    requires i < |SIGNAL_NAMES| && EqIgnoreAsciiCase(SIGNAL_NAMES[i], raw)
    ensures FindName(raw, 0) == Some(SIGNAL_NAMES[i])
  {
    var found := FindName(raw, 0);
    assert found.Some?;
    var j :| 0 <= j < |SIGNAL_NAMES| && SIGNAL_NAMES[j] == found.value;
    NamesArePlain(i);
    NamesArePlain(j);
    UpperCaseIsDistinct(SIGNAL_NAMES[j], SIGNAL_NAMES[i]);
  }

  lemma NoNameHasThePrefix(i: nat)
    requires i < |SIGNAL_NAMES|
    ensures |SIGNAL_NAMES[i]| >= 3 ==> !EqIgnoreAsciiCase(SIGNAL_NAMES[i][..3], "SIG")
  {
    if |SIGNAL_NAMES[i]| >= 3 {
      assert SIGNAL_NAMES[i][..3][1] == SIGNAL_NAMES[i][1] && SIGNAL_NAMES[i][..3][0] == SIGNAL_NAMES[i][0];
      assert !(SIGNAL_NAMES[i][0] == 'S' && SIGNAL_NAMES[i][1] == 'I');
      NamesArePlain(i);
      assert SIGNAL_NAMES[i][0] in SIGNAL_NAMES[i] && SIGNAL_NAMES[i][1] in SIGNAL_NAMES[i];
    }
  }

  /** A name is accepted in any letter case, with or without the prefix and with white space around
      it, and stands for the name in the table; nothing else is accepted. */
  lemma CanonicalExactly(raw: string, name: string)
    ensures CanonicalSignalName(raw) == Some(name) <==>
      name in SIGNAL_NAMES && (EqIgnoreAsciiCase(Trim(raw), name) || EqIgnoreAsciiCase(Trim(raw), "SIG" + name))
  {
    var trimmed := Trim(raw);
    if name in SIGNAL_NAMES {
      var i :| 0 <= i < |SIGNAL_NAMES| && SIGNAL_NAMES[i] == name;
      NamesArePlain(i);
      NoNameHasThePrefix(i);
      if EqIgnoreAsciiCase(trimmed, "SIG" + name) {
        PrefixedMatches(trimmed, name);
        FindsEveryName(i, trimmed[3..]);
      } else if EqIgnoreAsciiCase(trimmed, name) {
        FindsEveryName(i, trimmed);
      }
    }
    if CanonicalSignalName(raw) == Some(name) && |trimmed| >= 3 {
      PrefixedMatches(trimmed, name);
    }
  }

  lemma PrefixedMatches(s: string, name: string)
    requires |s| >= 3
    ensures EqIgnoreAsciiCase(s, "SIG" + name) <==>
      EqIgnoreAsciiCase(s[..3], "SIG") && EqIgnoreAsciiCase(name, s[3..])
  {
    assert ("SIG" + name)[..3] == "SIG" && ("SIG" + name)[3..] == name;
    if EqIgnoreAsciiCase(s[..3], "SIG") && EqIgnoreAsciiCase(name, s[3..]) {
      forall i | 0 <= i < |s|
        ensures AsciiLower(s[i]) == AsciiLower(("SIG" + name)[i])
      {
        if i < 3 {
          assert s[i] == s[..3][i];
        } else {
          assert s[i] == s[3..][i - 3];
        }
      }
    }
  }

  lemma PlainIsTrimmed(s: string)
    requires forall c <- s :: IsNameChar(c)
    ensures IsTrimmed(s)
  {
    if s != "" {
      assert s[0] in s && s[|s| - 1] in s;
    }
  }

  lemma CanonicalNameIsFound(i: nat)
    requires i < |SIGNAL_NAMES|
    ensures CanonicalSignalName("SIG" + SIGNAL_NAMES[i]) == Some(SIGNAL_NAMES[i])
    ensures forall c <- "SIG" + SIGNAL_NAMES[i] :: IsNameChar(c)
  {
    var name := "SIG" + SIGNAL_NAMES[i];
    NamesArePlain(i);
    PlainIsTrimmed(name);
    TrimTrims(name);
    assert name[..3] == "SIG" && name[3..] == SIGNAL_NAMES[i];
    FindsEveryName(i, SIGNAL_NAMES[i]);
  }

  /** A parsed name reads back as itself: it is already canonical. */
  lemma ParsedSignalIsCanonical(raw: string, name: string)
    requires ParseSignal(raw) == Some(name)
    ensures ParseSignal(name) == Some(name)
    ensures name != "" && IsTrimmed(name) && forall c <- name :: IsNameChar(c)
  {
    var found := CanonicalSignalName(Trim(raw)).value;
    var i :| 0 <= i < |SIGNAL_NAMES| && SIGNAL_NAMES[i] == found;
    CanonicalNameIsFound(i);
    PlainIsTrimmed(name);
    TrimTrims(name);
  }
}
