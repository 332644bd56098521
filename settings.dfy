/** The start-up validation of `settings.conf`: the `host:port` check of LISTEN and the
    rules for the five required settings. The settings file is a Python module, so a
    value is a string or an integer literal; `sys.exit(1)` becomes the answer `true`
    ("exit"). */
module Settings {
  import opened Wrappers
  import opened Text

  datatype ConfigValue = Str(s: string) | Int(i: int)

  // ---------------------------------------------------------------------------
  // check_listen

  const MaxPort := 65535
  const MaxOctet := 255

  /** The value of `int(port)` is a usable port number. */
  predicate PortInRange(v: int) {
    0 < v <= MaxPort
  }

  predicate OctetInRange(v: int) {
    0 <= v <= MaxOctet
  }

  /** The loop over the dotted host parts: every part goes through `int()`, so a part that
      is not a number raises ValueError even after a part out of range. */
  function OctetsCheck(items: seq<string>): (r: Run<bool>)
    ensures r.Returns? || r == Raises(ValueError)
  {
    if items == [] then Returns(true)
    else
      match ParseInt(items[0])
      case None => Raises(ValueError)
      case Some(v) =>
        match OctetsCheck(items[1..])
        case Returns(ok) => Returns(ok && OctetInRange(v))
        case other => other
  }

  /** The octet loop raises exactly when some part is not a number, and passes exactly when
      every part is a number in 0..255. */
  lemma {:induction false} OctetsCheckMeaning(items: seq<string>)
    ensures OctetsCheck(items).Raises? <==> exists k :: 0 <= k < |items| && ParseInt(items[k]).None?
    ensures OctetsCheck(items) == Returns(true) <==>
      forall k :: 0 <= k < |items| ==> ParseInt(items[k]).Some? && OctetInRange(ParseInt(items[k]).value)
  {
    if items != [] {
      OctetsCheckMeaning(items[1..]);
      assert forall k :: 1 <= k < |items| ==> items[k] == items[1..][k - 1];
      if exists k :: 0 <= k < |items[1..]| && ParseInt(items[1..][k]).None? {
        var k :| 0 <= k < |items[1..]| && ParseInt(items[1..][k]).None?;
        assert ParseInt(items[k + 1]).None?;
      }
    }
  }

  /** `check_listen`: exactly one `:`, then `int(port)` in 1..65535, then a host of exactly
      four dotted parts each `int()` in 0..255. The port is converted before the host is
      looked at; a value that is not a string makes the `in` test raise TypeError. */
  function ListenCheck(listen: ConfigValue): (r: Run<bool>)
    ensures r.Returns? || r == Raises(ValueError) || (listen.Int? && r == Raises(TypeError))
  {
    match listen
    case Int(_) => Raises(TypeError)
    case Str(p) =>
      if Count(p, ':') != 1 then Returns(false)
      else
        var parts := Split(p, ':');
        var host, port := parts[0], parts[1];
        match ParseInt(port)
        case None => Raises(ValueError)
        case Some(v) =>
          if Count(host, '.') != 3 then Returns(false)
          else
            match OctetsCheck(Split(host, '.'))
            case Returns(ok) => Returns(ok && PortInRange(v))
            case other => other
  }

  /** LISTEN passes exactly when it is `host:port` with one `:`, a port in 1..65535 and a host
      of four dotted numbers in 0..255. */
  lemma ListenAccepts(p: string)
    ensures ListenCheck(Str(p)) == Returns(true) <==>
      Count(p, ':') == 1 &&
      var parts := Split(p, ':');
      ParseInt(parts[1]).Some? && PortInRange(ParseInt(parts[1]).value) &&
      Count(parts[0], '.') == 3 &&
      var items := Split(parts[0], '.');
      |items| == 4 &&
      forall k :: 0 <= k < 4 ==> ParseInt(items[k]).Some? && OctetInRange(ParseInt(items[k]).value)
  {
    if Count(p, ':') == 1 {
      var host := Split(p, ':')[0];
      OctetsCheckMeaning(Split(host, '.'));
    }
  }

  /** A text whose `:` count is not one, or whose host has not exactly three `.`, is refused
      without raising; so is one whose port is out of range, once the host parts are numbers. */
  lemma ListenRefuses(p: string)
    ensures Count(p, ':') != 1 ==> ListenCheck(Str(p)) == Returns(false)
    ensures Count(p, ':') == 1 ==>
      var parts := Split(p, ':');
      ParseInt(parts[1]).Some? && Count(parts[0], '.') != 3 ==> ListenCheck(Str(p)) == Returns(false)
    ensures Count(p, ':') == 1 ==>
      var parts := Split(p, ':');
      (ParseInt(parts[1]).Some? && !PortInRange(ParseInt(parts[1]).value) && Count(parts[0], '.') == 3 &&
       OctetsCheck(Split(parts[0], '.')).Returns?) ==> ListenCheck(Str(p)) == Returns(false)
  {
  }

  /** `check_listen` as written: a flag that starts true and is only ever cleared. */
  method CheckListen(listen: ConfigValue) returns (r: Run<bool>)
    ensures r == ListenCheck(listen)
  {
    if listen.Int? {
      return Raises(TypeError);
    }
    var p := listen.s;
    var checkRet := true;
    if ':' in p && Count(p, ':') == 1 {
      var parts := Split(p, ':');
      var host, port := parts[0], parts[1];
      var portValue := ParseInt(port);
      if portValue.None? {
        return Raises(ValueError);
      }
      if portValue.value > MaxPort || portValue.value <= 0 {
        checkRet := false;
      }
      if '.' in host && Count(host, '.') == 3 {
        r := CheckOctets(Split(host, '.'), checkRet);
        return;
      } else {
        checkRet := false;
      }
    } else {
      checkRet := false;
    }
    return Returns(checkRet);
  }

  /** The `for item in host.split(".")` loop, entered with the flag `checkRet`. */
  method CheckOctets(items: seq<string>, checkRet: bool) returns (r: Run<bool>)
    ensures r == match OctetsCheck(items) case Returns(ok) => Returns(checkRet && ok) case other => other
  {
    OctetsCheckMeaning(items);
    var flag := checkRet;
    for k := 0 to |items|
      invariant forall j :: 0 <= j < k ==> ParseInt(items[j]).Some?
      invariant flag == (checkRet && forall j :: 0 <= j < k ==> OctetInRange(ParseInt(items[j]).value))
    {
      var item := ParseInt(items[k]);
      if item.None? {
        return Raises(ValueError);
      }
      if item.value < 0 || item.value > MaxOctet {
        flag := false;
      }
    }
    r := Returns(flag);
  }

  // ---------------------------------------------------------------------------
  // check_settings_conf

  const Listen := "LISTEN"
  const GiteeAccessToken := "GITEE_ACCESS_TOKEN"
  const ScanDbInterval := "SCAN_DB_INTERVAL"
  const User := "USER"
  const Password := "PASSWORD"

  const RequiredSettings: seq<string> := [Listen, GiteeAccessToken, ScanDbInterval, User, Password]

  /** The longest accepted user name. */
  const MaxUserLength := 32

  /** `int(value)`: an integer as is, a string parsed (ValueError when it is no number). */
  function IntOf(v: ConfigValue): (r: Run<int>)
    ensures r.Returns? || (v.Str? && r == Raises(ValueError))
  {
    match v
    case Int(i) => Returns(i)
    case Str(s) => if ParseInt(s).Some? then Returns(ParseInt(s).value) else Raises(ValueError)
  }

  /** Whether one required setting is wrong: missing, the empty string, or failing the rule
      for its name. The rules run one after the other and each can raise. */
  function SettingError(name: string, config: map<string, ConfigValue>): Run<bool> {
    if name !in config then Returns(true)
    else
      var v := config[name];
      if v == Str("") then Returns(true)
      else
        var listen := if name == Listen then ListenCheck(v) else Returns(true);
        var interval := if name == ScanDbInterval then IntOf(v) else Returns(1);
        var user := if name == User then (if v.Str? then Returns(|v.s|) else Raises(TypeError)) else Returns(0);
        if listen.Raises? then Raises(listen.error)
        else if interval.Raises? then Raises(interval.error)
        else if user.Raises? then Raises(user.error)
        else Returns(!listen.value || interval.value <= 0 || user.value > MaxUserLength)
  }

  /** The loop over the required settings from the `i`-th on, with `found` errors so far. */
  function SettingsErrorFrom(config: map<string, ConfigValue>, i: nat, found: bool): Run<bool>
    requires i <= |RequiredSettings|
    decreases |RequiredSettings| - i
  {
    if i == |RequiredSettings| then Returns(found)
    else
      match SettingError(RequiredSettings[i], config)
      case Returns(e) => SettingsErrorFrom(config, i + 1, found || e)
      case other => other
  }

  /** `check_settings_conf`: Returns(true) where the original calls `sys.exit(1)`. */
  function SettingsExit(config: map<string, ConfigValue>): Run<bool> {
    SettingsErrorFrom(config, 0, false)
  }

  /** Every setting is checked before the decision: when no rule raises, the program exits
      exactly when some required setting is wrong. */
  lemma {:induction false} SettingsExitMeaning(config: map<string, ConfigValue>, i: nat, found: bool)
    requires i <= |RequiredSettings|
    requires forall k :: i <= k < |RequiredSettings| ==> SettingError(RequiredSettings[k], config).Returns?
    ensures SettingsErrorFrom(config, i, found) ==
      Returns(found || exists k :: i <= k < |RequiredSettings| && SettingError(RequiredSettings[k], config) == Returns(true))
    decreases |RequiredSettings| - i
  {
    if i < |RequiredSettings| {
      var e := SettingError(RequiredSettings[i], config).value;
      SettingsExitMeaning(config, i + 1, found || e);
    }
  }

  /** A missing or empty required setting makes the program exit, unless a rule raises. */
  lemma MissingSettingExits(config: map<string, ConfigValue>, name: string)
    requires name in RequiredSettings && (name !in config || config[name] == Str(""))
    requires forall k :: 0 <= k < |RequiredSettings| ==> SettingError(RequiredSettings[k], config).Returns?
    ensures SettingsExit(config) == Returns(true)
  {
    SettingsExitMeaning(config, 0, false);
    var k :| 0 <= k < |RequiredSettings| && RequiredSettings[k] == name;
    assert SettingError(RequiredSettings[k], config) == Returns(true);
  }

  /** The USER rule: more than 32 characters is an error, exactly 32 is accepted. */
  lemma UserLength(config: map<string, ConfigValue>, s: string)
    requires User in config && config[User] == Str(s) && s != ""
    ensures SettingError(User, config) == Returns(|s| > MaxUserLength)
  {
  }

  /** The SCAN_DB_INTERVAL rule: a value `int()` reads as zero or less is an error, a string
      that is no number raises ValueError. */
  lemma IntervalRule(config: map<string, ConfigValue>)
    requires ScanDbInterval in config && config[ScanDbInterval] != Str("")
    ensures var v := config[ScanDbInterval];
      SettingError(ScanDbInterval, config) ==
        if IntOf(v).Raises? then Raises(ValueError) else Returns(IntOf(v).value <= 0)
  {
  }

  /** `check_settings_conf` as written: a flag set by any wrong setting, then the decision. */
  method CheckSettingsConf(config: map<string, ConfigValue>) returns (r: Run<bool>)
    ensures r == SettingsExit(config)
  {
    var settingError := false;
    for i := 0 to |RequiredSettings|
      invariant SettingsExit(config) == SettingsErrorFrom(config, i, settingError)
    {
      var setting := RequiredSettings[i];
      if setting in config {
        var v := config[setting];
        if v == Str("") {
          settingError := true;
        } else {
          if setting == Listen {
            var ok := CheckListen(v);
            if ok.Raises? {
              return Raises(ok.error);
            }
            if !ok.value {
              settingError := true;
            }
          }
          if setting == ScanDbInterval {
            var interval := IntOf(v);
            if interval.Raises? {
              return Raises(interval.error);
            }
            if interval.value <= 0 {
              settingError := true;
            }
          }
          if setting == User {
            if v.Int? {
              return Raises(TypeError);
            }
            if |v.s| > MaxUserLength {
              settingError := true;
            }
          }
        }
      } else {
        settingError := true;
      }
    }
    r := Returns(settingError);
  }
}
