/** The pq-timeouts driver: taking read_timeout and write_timeout out of a connection string. */
module ConnectionSettings {
  import opened Types
  import opened Strings

  predicate IsUrl(s: string) {
    HasPrefix(s, "postgres://") || HasPrefix(s, "postgresql://")
  }

  const READ := "read_timeout"
  const WRITE := "write_timeout"

  /** The value of a timeout setting; the code panics if the setting has no equals sign. */
  datatype Value = Lasting(duration: int) | Unreadable | Missing

  /** An ordinary setting, or the read or write timeout. */
  datatype Kind = Other | Timeout(read: bool, value: Value)

  datatype Setting = Setting(text: string, kind: Kind)

  /** A duration in nanoseconds, in 64-bit arithmetic. */
  function Duration(millis: int): int {
    Wrap64(millis * 1_000_000)
  }

  function ValueOf(parts: seq<string>): Value {
    if |parts| < 2 then Missing else
    match Atoi(Trim(parts[1], '\''))
    case Some(n) => Lasting(Duration(n))
    case None => Unreadable
  }

  function Classify(token: string): Kind {
    var parts := Split(token, '=');
    if parts[0] == READ || parts[0] == WRITE then Timeout(parts[0] == READ, ValueOf(parts)) else Other
  }

  function Classified(tokens: seq<string>): (settings: seq<Setting>)
    ensures |settings| == |tokens|
    ensures forall i :: 0 <= i < |tokens| ==> settings[i] == Setting(tokens[i], Classify(tokens[i]))
  {
    seq(|tokens|, i requires 0 <= i < |tokens| => Setting(tokens[i], Classify(tokens[i])))
  }

  function TimeoutName(read: bool): string {
    if read then READ else WRITE
  }

  lemma ClassifyNamed(read: bool, value: string)
    requires '=' !in value
    ensures Classify(TimeoutName(read) + "=" + value) == Timeout(read, ValueOf([TimeoutName(read), value]))
  {
    assert READ[0] == 'r' && WRITE[0] == 'w';
    SplitTwo(TimeoutName(read), '=', value);
  }

  /** Which settings are timeouts: those whose name, up to the first equals sign if any, is one of the two. */
  lemma TimeoutsAre(name: string, rest: string)
    requires '=' !in name && (rest == [] || rest[0] == '=')
    ensures Classify(name + rest).Timeout? <==> name == "read_timeout" || name == "write_timeout"
    ensures Classify(name + rest).Timeout? ==> (Classify(name + rest).read <==> name == "read_timeout")
    ensures Classify(name + rest).Timeout? ==> (Classify(name + rest).value.Missing? <==> rest == [])
  {
    SplitFirst(name, '=', rest);
  }

  /** How a connection string begins to set a timeout. */
  function Named(read: bool): (s: string)
    ensures s == TimeoutName(read) + "="
  {
    if read then "read_timeout=" else "write_timeout="
  }

  /** A number as the connection string may give it, quoted or not. */
  function Written(millis: nat, quoted: bool): string {
    if quoted then ['\''] + Digits(millis) + ['\''] else Digits(millis)
  }

  lemma WrittenHasNoEquals(millis: nat, quoted: bool)
    ensures '=' !in Written(millis, quoted)
  {
    assert forall i :: 0 <= i < |Digits(millis)| ==> Digits(millis)[i] != '=';
  }

  /**
    A timeout written as a whole number of milliseconds, quoted or not, is read as the 64-bit duration of
    that number, and that is as long as written exactly if the nanoseconds fit a signed 64-bit integer.
   */
  lemma TimeoutAsWritten(read: bool, millis: nat, quoted: bool)
    requires millis < INT64_LIMIT
    ensures Classify(Named(read) + Written(millis, quoted)) == Timeout(read, Lasting(Duration(millis)))
    ensures Duration(millis) == millis * 1_000_000 <==> millis * 1_000_000 < INT64_LIMIT
  {
    WrittenHasNoEquals(millis, quoted);
    ClassifyNamed(read, Written(millis, quoted));
    TrimDigits(Digits(millis), '\'');
    AtoiOfDigits(millis);
  }

  /** A number that does not fit the integers of strconv is an error, not a timeout. */
  lemma TimeoutTooLarge(read: bool, millis: nat, quoted: bool)
    requires millis >= INT64_LIMIT
    ensures Classify(Named(read) + Written(millis, quoted)) == Timeout(read, Unreadable)
  {
    WrittenHasNoEquals(millis, quoted);
    ClassifyNamed(read, Written(millis, quoted));
    TrimDigits(Digits(millis), '\'');
    AtoiOfDigits(millis);
  }

  const TWO_TO_THE_58 := 0x400_0000_0000_0000

  /**
    It does go wrong: some durations wrap around to zero, which means no timeout at all. These are
    exactly the multiples of 2^58 milliseconds.
   */
  lemma TimeoutVanishesIff(millis: int)
    ensures Duration(millis) == 0 <==> millis % TWO_TO_THE_58 == 0
  {
    var x := millis * 1_000_000;
    assert Wrap64(x) == 0 <==> x % (2 * INT64_LIMIT) == 0;
    if x % (2 * INT64_LIMIT) == 0 {
      // 15,625 has an inverse modulo 2^58
      var q := x / (2 * INT64_LIMIT);
      assert 15_625 * millis == TWO_TO_THE_58 * q;
      assert millis == TWO_TO_THE_58 * (76_480_200_929_599_801 * q - 4_146 * millis);
    }
    if millis % TWO_TO_THE_58 == 0 {
      assert x == 2 * INT64_LIMIT * (15_625 * (millis / TWO_TO_THE_58));
    }
  }

  datatype Progress = Progress(kept: seq<string>, readTimeout: int, writeTimeout: int)

  datatype Outcome =
    | Parsed(progress: Progress)
    | BadValue(read: bool)
    | Panic

  /** The effect of one setting. */
  function Take(p: Progress, setting: Setting): Outcome {
    match setting.kind
    case Other => Parsed(p.(kept := p.kept + [setting.text]))
    case Timeout(_, Missing) => Panic
    case Timeout(read, Unreadable) => BadValue(read)
    case Timeout(read, Lasting(d)) =>
      if read then Parsed(p.(readTimeout := d)) else Parsed(p.(writeTimeout := d))
  }

  function Process(settings: seq<Setting>): Outcome {
    if settings == [] then Parsed(Progress([], 0, 0)) else
    match Process(settings[..|settings| - 1])
    case Parsed(p) => Take(p, settings[|settings| - 1])
    case other => other
  }

  // ---- what Process means ----

  /** The settings that are not timeouts, in order. */
  function Filter(settings: seq<Setting>): seq<string> {
    if settings == [] then [] else
    Filter(settings[..|settings| - 1]) +
    if settings[|settings| - 1].kind.Other? then [settings[|settings| - 1].text] else []
  }

  predicate Names(setting: Setting, read: bool) {
    setting.kind.Timeout? && setting.kind.read == read
  }

  ghost predicate LastNaming(settings: seq<Setting>, read: bool, i: int) {
    0 <= i < |settings| && Names(settings[i], read) && forall j :: i < j < |settings| ==> !Names(settings[j], read)
  }

  /** A timeout is that of its last occurrence, or zero. */
  ghost predicate IsTimeoutOf(settings: seq<Setting>, read: bool, duration: int) {
    && (forall i :: LastNaming(settings, read, i) ==>
          settings[i].kind.value == Lasting(duration))
    && ((forall i :: 0 <= i < |settings| ==> !Names(settings[i], read)) ==> duration == 0)
  }

  /** The last occurrence of the timeout, if there is one, lasts no time at all. */
  ghost predicate NoTimeout(settings: seq<Setting>, read: bool) {
    forall i :: LastNaming(settings, read, i) ==> settings[i].kind.value == Lasting(0)
  }

  lemma {:induction false} SomeLastNaming(settings: seq<Setting>, read: bool, i: int) returns (k: int)
    requires 0 <= i < |settings| && Names(settings[i], read)
    ensures LastNaming(settings, read, k)
    decreases |settings| - i
  {
    if LastNaming(settings, read, i) {
      k := i;
    } else {
      var j :| i < j < |settings| && Names(settings[j], read);
      k := SomeLastNaming(settings, read, j);
    }
  }

  lemma TimeoutIsZeroIff(settings: seq<Setting>, read: bool, duration: int)
    requires IsTimeoutOf(settings, read, duration)
    ensures duration == 0 <==> NoTimeout(settings, read)
  {
    if NoTimeout(settings, read) {
      if i :| 0 <= i < |settings| && Names(settings[i], read) {
        var k := SomeLastNaming(settings, read, i);
        assert settings[k].kind.value == Lasting(0);
      }
    }
  }

  predicate Readable(setting: Setting) {
    setting.kind.Timeout? ==> setting.kind.value.Lasting?
  }

  predicate AllReadable(settings: seq<Setting>) {
    forall i :: 0 <= i < |settings| ==> Readable(settings[i])
  }

  lemma TimeoutAfter(init: seq<Setting>, last: Setting, read: bool, before: int, after: int)
    requires IsTimeoutOf(init, read, before) && Readable(last)
    requires if Names(last, read) then last.kind.value == Lasting(after) else after == before
    ensures IsTimeoutOf(init + [last], read, after)
  {
    var all := init + [last];
    assert forall j :: 0 <= j < |init| ==> all[j] == init[j];
    forall i | LastNaming(all, read, i)
      ensures all[i].kind.value == Lasting(after)
    {
      if i < |init| {
        assert all[|init|] == last;
        assert LastNaming(init, read, i);
      }
    }
    if forall i :: 0 <= i < |all| ==> !Names(all[i], read) {
      assert !Names(all[|init|], read);
      assert forall i :: 0 <= i < |init| ==> !Names(init[i], read);
    }
  }

  /**
    The settings parse iff every timeout has a readable value; then exactly the other settings are
    kept, in order, and each timeout is its last occurrence or zero.
   */
  lemma {:induction false} ProcessMeaning(settings: seq<Setting>)
    ensures Process(settings).Parsed? <==> AllReadable(settings)
    ensures Process(settings).Parsed? ==>
              var p := Process(settings).progress;
              && p.kept == Filter(settings)
              && IsTimeoutOf(settings, true, p.readTimeout)
              && IsTimeoutOf(settings, false, p.writeTimeout)
  {
    if settings != [] {
      var init, last := settings[..|settings| - 1], settings[|settings| - 1];
      ProcessMeaning(init);
      assert settings == init + [last];
      assert AllReadable(settings) <==> AllReadable(init) && Readable(last);
      if Process(settings).Parsed? {
        var p, q := Process(init).progress, Process(settings).progress;
        TimeoutAfter(init, last, true, p.readTimeout, q.readTimeout);
        TimeoutAfter(init, last, false, p.writeTimeout, q.writeTimeout);
      }
    }
  }

  /** A timeout without an equals sign, after readable settings only. */
  ghost predicate PanicsAt(settings: seq<Setting>, i: int) {
    0 <= i < |settings| && settings[i].kind.Timeout? && settings[i].kind.value.Missing? && AllReadable(settings[..i])
  }

  /** The loop panics iff the first unreadable timeout has no equals sign. */
  lemma {:induction false} PanicExactly(settings: seq<Setting>)
    ensures Process(settings).Panic? <==> exists i :: PanicsAt(settings, i)
  {
    if settings != [] {
      var n := |settings| - 1;
      var init := settings[..n];
      PanicExactly(init);
      ProcessMeaning(init);
      assert forall i :: 0 <= i < n ==> settings[..i] == init[..i] && (PanicsAt(settings, i) <==> PanicsAt(init, i));
      var last := settings[n].kind;
      assert PanicsAt(settings, n) <==> last.Timeout? && last.value.Missing? && AllReadable(init);
    }
  }

  lemma {:induction false} FilterKeepsOthers(settings: seq<Setting>)
    ensures forall k :: 0 <= k < |Filter(settings)| ==> Setting(Filter(settings)[k], Other) in settings
    ensures forall i :: 0 <= i < |settings| && settings[i].kind.Other? ==> settings[i].text in Filter(settings)
  {
    if settings != [] {
      var init, last := settings[..|settings| - 1], settings[|settings| - 1];
      FilterKeepsOthers(init);
      assert settings == init + [last];
    }
  }

  lemma OtherIsToken(tokens: seq<string>, text: string)
    requires Setting(text, Other) in Classified(tokens)
    ensures text in tokens && Classify(text).Other?
  {
    var settings := Classified(tokens);
    var i :| 0 <= i < |settings| && settings[i] == Setting(text, Other);
    assert settings[i] == Setting(tokens[i], Classify(tokens[i]));
  }

  lemma FilteredAreOther(tokens: seq<string>)
    ensures forall k :: 0 <= k < |Filter(Classified(tokens))| ==>
              Filter(Classified(tokens))[k] in tokens && Classify(Filter(Classified(tokens))[k]).Other?
  {
    var settings := Classified(tokens);
    var kept := Filter(settings);
    FilterKeepsOthers(settings);
    forall k | 0 <= k < |kept|
      ensures kept[k] in tokens && Classify(kept[k]).Other?
    {
      OtherIsToken(tokens, kept[k]);
    }
  }

  lemma {:induction false} OthersAreAllKept(settings: seq<Setting>, texts: seq<string>)
    requires |texts| == |settings|
    requires forall i :: 0 <= i < |settings| ==> settings[i] == Setting(texts[i], Other)
    ensures Process(settings) == Parsed(Progress(texts, 0, 0))
  {
    if settings != [] {
      var n := |settings| - 1;
      OthersAreAllKept(settings[..n], texts[..n]);
      assert texts == texts[..n] + [texts[n]];
    }
  }

  /** Processing what was kept keeps all of it and finds no timeout. */
  lemma ProcessIsIdempotent(tokens: seq<string>)
    ensures var kept := Filter(Classified(tokens));
            Process(Classified(kept)) == Parsed(Progress(kept, 0, 0))
  {
    var kept := Filter(Classified(tokens));
    FilteredAreOther(tokens);
    OthersAreAllKept(Classified(kept), kept);
  }

  // ---- Open ----

  datatype Opened =
    | Dial(connection: string, readTimeout: int, writeTimeout: int)
    | UrlError
    | ValueError(read: bool)
    | Crash

  /** The settings string: that of a URL is whatever lib/pq makes of it. */
  function Resolve(parseUrl: string -> Option<string>, connection: string): Option<string> {
    if IsUrl(connection) then parseUrl(connection) else Some(connection)
  }

  function Finish(o: Outcome): Opened {
    match o
    case Parsed(p) => Dial(Join(p.kept), p.readTimeout, p.writeTimeout)
    case BadValue(read) => ValueError(read)
    case Panic => Crash
  }

  /** The settings string is `text`: what lib/pq makes of a URL of either scheme, and otherwise the string itself. */
  predicate StandsFor(parseUrl: string -> Option<string>, connection: string, text: string) {
    if "postgres://" <= connection || "postgresql://" <= connection then parseUrl(connection) == Some(text)
    else text == connection
  }

  function OpenSpec(parseUrl: string -> Option<string>, connection: string): Opened {
    match Resolve(parseUrl, connection)
    case None => UrlError
    case Some(settings) => Finish(Process(Classified(Fields(settings))))
  }

  method ReadValue(parts: seq<string>) returns (v: Value)
    ensures v == ValueOf(parts)
  {
    if |parts| < 2 {
      return Missing;
    }
    var val := Atoi(Trim(parts[1], '\''));
    return if val.None? then Unreadable else Lasting(Duration(val.value));
  }

  method ReadSetting(token: string) returns (kind: Kind)
    ensures kind == Classify(token)
  {
    var s := Split(token, '=');
    if s[0] == READ || s[0] == WRITE {
      var v := ReadValue(s);
      return Timeout(s[0] == READ, v);
    }
    return Other;
  }

  /** The loop over the settings. */
  method ProcessSettings(tokens: seq<string>) returns (o: Outcome)
    ensures o == Process(Classified(tokens))
  {
    var newConnectionSettings: seq<string>, readTimeout, writeTimeout := [], 0, 0;
    ghost var settings := Classified(tokens);
    for i := 0 to |tokens|
      invariant Process(settings[..i]) == Parsed(Progress(newConnectionSettings, readTimeout, writeTimeout))
    {
      var kind := ReadSetting(tokens[i]);
      ProcessOneMore(settings, i, Setting(tokens[i], kind));
      match kind
      case Other => newConnectionSettings := newConnectionSettings + [tokens[i]];
      case Timeout(read, Missing) => OutcomeStays(settings, i); return Panic;
      case Timeout(read, Unreadable) => OutcomeStays(settings, i); return BadValue(read);
      case Timeout(read, Lasting(d)) =>
        if read {
          readTimeout := d;
        } else {
          writeTimeout := d;
        }
    }
    assert settings[..|settings|] == settings;
    return Parsed(Progress(newConnectionSettings, readTimeout, writeTimeout));
  }

  lemma ProcessOneMore(settings: seq<Setting>, i: nat, setting: Setting)
    requires i < |settings| && settings[i] == setting && Process(settings[..i]).Parsed?
    ensures Process(settings[..i + 1]) == Take(Process(settings[..i]).progress, setting)
  {
    assert settings[..i + 1][..i] == settings[..i];
  }

  method Open(parseUrl: string -> Option<string>, connection: string) returns (result: Opened)
    ensures result == OpenSpec(parseUrl, connection)
  {
    var resolved := Resolve(parseUrl, connection);
    if resolved.None? {
      return UrlError;
    }
    var o := ProcessSettings(Fields(resolved.value));
    return Finish(o);
  }

  /** A string that begins with either scheme is parsed as a URL first, and an error of that is the result. */
  lemma UrlsAreParsed(parseUrl: string -> Option<string>, scheme: string, rest: string)
    requires scheme == "postgres://" || scheme == "postgresql://"
    ensures OpenSpec(parseUrl, scheme + rest) ==
            match parseUrl(scheme + rest)
            case None => UrlError
            case Some(text) => Finish(Process(Classified(Fields(text))))
  {
    assert (scheme + rest)[..|scheme|] == scheme;
  }

  /** Any other string is taken as it is. */
  lemma OthersAreNotParsed(parseUrl: string -> Option<string>, connection: string)
    requires !("postgres://" <= connection) && !("postgresql://" <= connection)
    ensures OpenSpec(parseUrl, connection) == Finish(Process(Classified(Fields(connection))))
  {
  }

  lemma OpenAsText(parseUrl: string -> Option<string>, connection: string, text: string)
    requires StandsFor(parseUrl, connection, text)
    ensures OpenSpec(parseUrl, connection) == Finish(Process(Classified(Fields(text))))
  {
  }

  /** How an outcome of the settings ends: with their meaning, an error value, or a panic. */
  lemma FinishMeaning(settings: seq<Setting>)
    ensures var r := Finish(Process(settings));
            && !r.UrlError?
            && (r.Dial? <==> AllReadable(settings))
            && (r.Dial? ==>
                  && r.connection == Join(Filter(settings))
                  && IsTimeoutOf(settings, true, r.readTimeout)
                  && IsTimeoutOf(settings, false, r.writeTimeout))
            && (r.Crash? <==> Process(settings).Panic?)
  {
    ProcessMeaning(settings);
  }

  /** What Open returns, in terms of the settings that the connection string stands for. */
  lemma OpenMeaning(parseUrl: string -> Option<string>, connection: string, text: string)
    requires StandsFor(parseUrl, connection, text)
    ensures var r, settings := OpenSpec(parseUrl, connection), Classified(Fields(text));
            && !r.UrlError?
            && (r.Dial? <==> AllReadable(settings))
            && (r.Dial? ==>
                  && r.connection == Join(Filter(settings))
                  && IsTimeoutOf(settings, true, r.readTimeout)
                  && IsTimeoutOf(settings, false, r.writeTimeout))
  {
    OpenAsText(parseUrl, connection, text);
    FinishMeaning(Classified(Fields(text)));
  }

  /** And when it panics. */
  lemma OpenPanicsIff(parseUrl: string -> Option<string>, connection: string, text: string)
    requires StandsFor(parseUrl, connection, text)
    ensures OpenSpec(parseUrl, connection).Crash? <==> exists i :: PanicsAt(Classified(Fields(text)), i)
  {
    OpenAsText(parseUrl, connection, text);
    FinishMeaning(Classified(Fields(text)));
    PanicExactly(Classified(Fields(text)));
  }

  /** The first error ends the loop. */
  lemma {:induction false} OutcomeStays(settings: seq<Setting>, i: nat)
    requires i < |settings| && !Process(settings[..i + 1]).Parsed?
    ensures Process(settings) == Process(settings[..i + 1])
  {
    var n := |settings| - 1;
    if i < n {
      assert settings[..n][..i + 1] == settings[..i + 1];
      OutcomeStays(settings[..n], i);
    } else {
      assert settings[..i + 1] == settings;
    }
  }

  /** The tokens of a connection string that are passed on to lib/pq. */
  function PassedOn(settings: string): seq<string> {
    Filter(Classified(Fields(settings)))
  }

  /** Splitting the string that is passed on gives exactly the tokens that are not timeouts, in order. */
  lemma PassedOnAsTokens(settings: string)
    ensures Fields(Join(PassedOn(settings))) == PassedOn(settings)
  {
    FieldsAreTokens(settings);
    FilteredAreOther(Fields(settings));
    FieldsOfJoin(PassedOn(settings));
  }

  lemma PrefixOfJoin(tokens: seq<string>, prefix: string)
    requires IsToken(prefix)
    ensures HasPrefix(Join(tokens), prefix) <==> tokens != [] && HasPrefix(tokens[0], prefix)
  {
    if |tokens| > 1 {
      var t, rest := tokens[0], Join(tokens[1..]);
      if |t| < |prefix| {
        assert (t + " " + rest)[|t|] == ' ' && !IsSpace(prefix[|t|]);
      } else {
        assert (t + " " + rest)[..|prefix|] == t[..|prefix|];
      }
    }
  }

  predicate StartsWithUrl(tokens: seq<string>) {
    tokens != [] && IsUrl(tokens[0])
  }

  lemma UrlOfJoin(tokens: seq<string>)
    ensures IsUrl(Join(tokens)) <==> StartsWithUrl(tokens)
  {
    PrefixOfJoin(tokens, "postgres://");
    PrefixOfJoin(tokens, "postgresql://");
  }

  /** Opening `out` with any treatment of URLs passes `out` on unchanged and finds no timeout. */
  ghost predicate Stable(out: string) {
    forall p: string -> Option<string> :: OpenSpec(p, out) == Dial(out, 0, 0)
  }

  lemma PlainSettingsAreStable(out: string, tokens: seq<string>)
    requires !IsUrl(out) && Fields(out) == tokens && Join(tokens) == out
    requires Process(Classified(tokens)) == Parsed(Progress(tokens, 0, 0))
    ensures Stable(out)
  {
  }

  lemma UrlsAreNotStable(out: string)
    requires IsUrl(out)
    ensures !Stable(out)
  {
    var refuse: string -> Option<string> := _ => None;
    assert OpenSpec(refuse, out) == UrlError;
  }

  /**
    Opening again with what was passed on changes nothing and finds no timeout, whatever lib/pq does
    with URLs, exactly if the first token passed on does not look like a URL.
   */
  lemma ReopeningIsStableIff(settings: string)
    ensures Stable(Join(PassedOn(settings))) <==> !StartsWithUrl(PassedOn(settings))
  {
    var out := Join(PassedOn(settings));
    PassedOnAsTokens(settings);
    UrlOfJoin(PassedOn(settings));
    ProcessIsIdempotent(Fields(settings));
    if IsUrl(out) {
      UrlsAreNotStable(out);
    } else {
      PlainSettingsAreStable(out, PassedOn(settings));
    }
  }

  /** What Open passes on, in terms of the settings string it resolved. */
  lemma OpenPassesOnTheRest(parseUrl: string -> Option<string>, connection: string)
    requires OpenSpec(parseUrl, connection).Dial?
    ensures Resolve(parseUrl, connection).Some?
    ensures OpenSpec(parseUrl, connection).connection == Join(PassedOn(Resolve(parseUrl, connection).value))
  {
    ProcessMeaning(Classified(Fields(Resolve(parseUrl, connection).value)));
  }

  lemma UrlIsOrdinary(t: string)
    requires IsUrl(t)
    ensures Classify(t).Other?
  {
    var name := Split(t, '=')[0];
    assert t[0] == 'p';
    assert name != [] && name[0] == 'p';
    assert READ[0] == 'r' && WRITE[0] == 'w';
  }

  lemma PassedOnUrl(url: string)
    requires IsUrl(url) && IsToken(url)
    ensures PassedOn(" " + url) == [url]
  {
    FieldsOfJoin([url]);
    assert (" " + url)[1..] == url && (" " + url)[0] == ' ';
    assert Fields(" " + url) == [url];
    UrlIsOrdinary(url);
    var settings := Classified([url]);
    assert settings[..0] == [] && Filter([]) == [];
    assert Filter(settings) == [] + [url];
  }

  lemma SpaceHidesUrl(s: string)
    requires s != [] && s[0] == ' '
    ensures !IsUrl(s)
  {
  }

  lemma UrlAloneIsNotStable(kept: seq<string>)
    requires |kept| == 1 && IsUrl(kept[0])
    ensures !Stable(Join(kept))
  {
    assert Join(kept) == kept[0];
    UrlsAreNotStable(kept[0]);
  }

  /** It does happen: white space before a URL hides it from the first call, not from the second. */
  lemma HiddenUrl(url: string)
    requires IsUrl(url) && IsToken(url)
    ensures !IsUrl(" " + url) && PassedOn(" " + url) == [url] && !Stable(Join(PassedOn(" " + url)))
  {
    PassedOnUrl(url);
    SpaceHidesUrl(" " + url);
    UrlAloneIsNotStable(PassedOn(" " + url));
  }
}
