/**
 * The version banner of cmd/version.go: linker-set variables first, then the
 * module version recorded in the binary, then its VCS build settings.
 */
module Version {
  import opened Base
  import opened Strings

  /** The three variables the release build sets with `-ldflags`. */
  datatype LinkerVars = LinkerVars(version: string, gitCommit: string, gitTag: string)

  /** Their values when the linker sets nothing. */
  const Unset: LinkerVars := LinkerVars("dev", "unknown", "unknown")

  /** One `debug.BuildSetting`. */
  datatype BuildSetting = BuildSetting(key: string, value: string)

  /** The parts of `debug.BuildInfo` the banner reads: `Main.Version` and `Settings`. */
  datatype BuildInfo = BuildInfo(mainVersion: string, settings: seq<BuildSetting>)

  /** A linker variable that was actually set. */
  predicate IsSet(s: string)
  {
    s != "unknown" && s != ""
  }

  /** "dev-" and the first seven characters of a revision (all of it when shorter). */
  function RevisionVersion(revision: string): (v: string)
    ensures IsPrefix("dev-", v) && |v| == 4 + Min(|revision|, 7)
    ensures v[4..] == revision[..Min(|revision|, 7)]
  {
    if |revision| > 7 then "dev-" + revision[..7] else "dev-" + revision
  }

  /**
   * One iteration of the settings loop, with `version` so far and `Version`
   * as `base`. `None` is the panic of slicing a `vcs.time` value shorter than
   * ten characters.
   */
  function ApplySetting(version: string, base: string, s: BuildSetting): Option<string>
  {
    if s.key == "vcs.revision" then Some(RevisionVersion(s.value))
    else if s.key == "vcs.time" && (version == "dev" || version == base) then
      if |s.value| < 10 then None else Some("dev-" + s.value[..10])
    else Some(version)
  }

  /** The whole loop over `settings`, starting from `version`. */
  function ApplySettings(version: string, base: string, settings: seq<BuildSetting>): Option<string>
    decreases |settings|
  {
    if settings == [] then Some(version)
    else match ApplySetting(version, base, settings[0])
      case None => None
      case Some(v) => ApplySettings(v, base, settings[1..])
  }

  /** The settings loop of `GetVersionInfo`. */
  method SettingsVersion(base: string, settings: seq<BuildSetting>) returns (r: Option<string>)
    ensures r == ApplySettings(base, base, settings)
  {
    var version := base;
    for i := 0 to |settings|
      invariant ApplySettings(version, base, settings[i..]) == ApplySettings(base, base, settings)
    {
      assert settings[i..][1..] == settings[i + 1..];
      var setting := settings[i];
      if setting.key == "vcs.revision" {
        version := RevisionVersion(setting.value);
      } else if setting.key == "vcs.time" {
        if version == "dev" || version == base {
          if |setting.value| < 10 {
            return None;
          }
          version := "dev-" + setting.value[..10];
        }
      }
    }
    return Some(version);
  }

  /** `kubectl-setimg version <v>\nGo version: <go>`. */
  function Banner(version: string, goVersion: string): string
  {
    "kubectl-setimg version " + version + "\nGo version: " + goVersion
  }

  /** The banner names exactly one version: two banners for the same Go agree only on the same version. */
  lemma BannerDeterminesVersion(v1: string, v2: string, goVersion: string)
    requires Banner(v1, goVersion) == Banner(v2, goVersion)
    ensures v1 == v2
  {
    var n := |"kubectl-setimg version "|;
    assert |v1| == |v2|;
    assert Banner(v1, goVersion)[n..n + |v1|] == v1;
    assert Banner(v2, goVersion)[n..n + |v2|] == v2;
  }

  /**
   * `GetVersionInfo`. `buildInfo` is what `debug.ReadBuildInfo` yields, if
   * anything; `None` as the result is the panic of `ApplySetting`.
   */
  method GetVersionInfo(vars: LinkerVars, buildInfo: Option<BuildInfo>, goVersion: string) returns (r: Option<string>)
    ensures IsSet(vars.gitTag) ==> r == Some(Banner(vars.gitTag, goVersion))
    ensures !IsSet(vars.gitTag) && IsSet(vars.gitCommit) ==> r == Some(Banner(vars.gitCommit, goVersion))
    ensures !IsSet(vars.gitTag) && !IsSet(vars.gitCommit) && buildInfo.None? ==> r == Some(Banner(vars.version, goVersion))
    ensures !IsSet(vars.gitTag) && !IsSet(vars.gitCommit) && buildInfo.Some?
            && buildInfo.value.mainVersion != "" && buildInfo.value.mainVersion != "(devel)" ==>
              r == Some(Banner(buildInfo.value.mainVersion, goVersion))
    ensures !IsSet(vars.gitTag) && !IsSet(vars.gitCommit) && buildInfo.Some?
            && (buildInfo.value.mainVersion == "" || buildInfo.value.mainVersion == "(devel)") ==>
              match ApplySettings(vars.version, vars.version, buildInfo.value.settings)
              case None => r.None?
              case Some(v) => r == Some(Banner(v, goVersion))
  {
    var version: string;
    if IsSet(vars.gitTag) {
      version := vars.gitTag;
    } else if IsSet(vars.gitCommit) {
      version := vars.gitCommit;
    } else {
      version := vars.version;
      if buildInfo.Some? {
        if buildInfo.value.mainVersion != "" && buildInfo.value.mainVersion != "(devel)" {
          version := buildInfo.value.mainVersion;
        } else {
          var fromSettings := SettingsVersion(vars.version, buildInfo.value.settings);
          if fromSettings.None? {
            return None;
          }
          version := fromSettings.value;
        }
      }
    }
    return Some(Banner(version, goVersion));
  }

  /** The loop either panics or ends with the starting version or a "dev-" version. */
  lemma {:induction false} SettingsResultShape(version: string, base: string, settings: seq<BuildSetting>)
    ensures ApplySettings(version, base, settings).Some? ==>
      ApplySettings(version, base, settings).value == version || IsPrefix("dev-", ApplySettings(version, base, settings).value)
    decreases |settings|
  {
    if settings != [] {
      var next := ApplySetting(version, base, settings[0]);
      if next.Some? {
        SettingsResultShape(next.value, base, settings[1..]);
        if next.value != version {
          assert IsPrefix("dev-", next.value);
          DevPrefixKept(next.value, base, settings[1..]);
        }
      }
    }
  }

  /** Once the version starts with "dev-", it keeps doing so. */
  lemma {:induction false} DevPrefixKept(version: string, base: string, settings: seq<BuildSetting>)
    requires IsPrefix("dev-", version)
    ensures ApplySettings(version, base, settings).Some? ==> IsPrefix("dev-", ApplySettings(version, base, settings).value)
    decreases |settings|
  {
    if settings != [] {
      var next := ApplySetting(version, base, settings[0]);
      if next.Some? {
        assert IsPrefix("dev-", next.value);
        DevPrefixKept(next.value, base, settings[1..]);
      }
    }
  }

  /** No `vcs.time` value shorter than ten characters: no panic. */
  lemma {:induction false} LongTimesNeverPanic(version: string, base: string, settings: seq<BuildSetting>)
    requires forall i :: 0 <= i < |settings| && settings[i].key == "vcs.time" ==> |settings[i].value| >= 10
    ensures ApplySettings(version, base, settings).Some?
    decreases |settings|
  {
    if settings != [] {
      LongTimesNeverPanic(ApplySetting(version, base, settings[0]).value, base, settings[1..]);
    }
  }

  /**
   * When `Version` does not itself start with "dev-", a `vcs.time` after a
   * `vcs.revision` is ignored, so the last revision decides the version.
   */
  lemma {:induction false} LastRevisionWins(version: string, base: string, settings: seq<BuildSetting>, last: nat)
    requires !IsPrefix("dev-", base)
    requires last < |settings| && settings[last].key == "vcs.revision"
    requires forall i :: last < i < |settings| ==> settings[i].key != "vcs.revision"
    ensures ApplySettings(version, base, settings).Some? ==>
              ApplySettings(version, base, settings) == Some(RevisionVersion(settings[last].value))
    decreases |settings|
  {
    var next := ApplySetting(version, base, settings[0]);
    if next.Some? {
      if last == 0 {
        RevisionStays(next.value, base, settings[1..]);
      } else {
        LastRevisionWins(next.value, base, settings[1..], last - 1);
      }
    }
  }

  /** A "dev-" version other than `Version` survives settings without a revision. */
  lemma {:induction false} RevisionStays(version: string, base: string, settings: seq<BuildSetting>)
    requires IsPrefix("dev-", version) && !IsPrefix("dev-", base)
    requires forall i :: 0 <= i < |settings| ==> settings[i].key != "vcs.revision"
    ensures ApplySettings(version, base, settings) == Some(version)
    decreases |settings|
  {
    if settings != [] {
      assert version != "dev" && version != base;
      RevisionStays(version, base, settings[1..]);
    }
  }

  /**
   * The order of settings matters: a time followed by a revision gives the
   * revision; a revision followed by a time also gives the revision; a time
   * alone gives the date; a short time alone panics.
   */
  lemma SettingOrder(base: string, revision: string, time: string)
    requires !IsPrefix("dev-", base) && |time| >= 10
    ensures ApplySettings(base, base, [BuildSetting("vcs.time", time), BuildSetting("vcs.revision", revision)])
              == Some(RevisionVersion(revision))
    ensures ApplySettings(base, base, [BuildSetting("vcs.revision", revision), BuildSetting("vcs.time", time)])
              == Some(RevisionVersion(revision))
    ensures ApplySettings(base, base, [BuildSetting("vcs.time", time)]) == Some("dev-" + time[..10])
    ensures ApplySettings(base, base, [BuildSetting("vcs.time", time[..9])]) == None
  {
    var rv := RevisionVersion(revision);
    assert rv != "dev" && rv != base;
    var t := BuildSetting("vcs.time", time);
    var r := BuildSetting("vcs.revision", revision);
    assert [t, r][1..] == [r];
    assert ApplySetting(base, base, t) == Some("dev-" + time[..10]);
    assert ApplySettings("dev-" + time[..10], base, [r]) == Some(rv);
    assert [r, t][1..] == [t];
    assert ApplySettings(rv, base, [t]) == Some(rv);
  }
}
