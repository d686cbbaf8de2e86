/**
 * `configure` in scripts/clock.py: the timezone link, the hardware clock sync and the NTP
 * service commands. Each command is built as an argument list and printed space-joined; none
 * is run.
 */
module Clock {
  import opened Wrappers
  import opened Text

  /**
   * The lines `configure` prints, in order: the timezone link only for a truthy timezone, the
   * hardware clock sync always (with --utc iff asked), the NTP service only if asked.
   */
  method Configure(timezone: Option<string>, hardwareUtc: bool, enableNtp: bool) returns (printed: seq<string>)
    ensures |printed| == (if Truthy(timezone) then 1 else 0) + 1 + (if enableNtp then 1 else 0)
    ensures Truthy(timezone) ==>
      printed[0] == Join(["ln", "-sf", "/usr/share/zoneinfo/" + timezone.value, "/etc/localtime"], ' ')
    ensures printed[if Truthy(timezone) then 1 else 0]
         == Join(["hwclock", "--systohc"] + (if hardwareUtc then ["--utc"] else []), ' ')
    ensures enableNtp ==> printed[|printed| - 1] == Join(["systemctl", "enable", "systemd-timesyncd"], ' ')
  {
    printed := [];
    if Truthy(timezone) {
      var timezoneCommand := ["ln", "-sf", "/usr/share/zoneinfo/" + timezone.value, "/etc/localtime"];
      printed := printed + [Join(timezoneCommand, ' ')];
    }
    var hwclockCommand := ["hwclock", "--systohc"];
    if hardwareUtc {
      hwclockCommand := hwclockCommand + ["--utc"];
    }
    printed := printed + [Join(hwclockCommand, ' ')];
    if enableNtp {
      var ntpEnableCommand := ["systemctl", "enable", "systemd-timesyncd"];
      printed := printed + [Join(ntpEnableCommand, ' ')];
    }
  }

  /** A printed timezone line splits back into its argument list when the zone name has no space. */
  lemma TimezoneWords(timezone: string)
    requires ' ' !in timezone
    ensures var args := ["ln", "-sf", "/usr/share/zoneinfo/" + timezone, "/etc/localtime"];
      Split(Join(args, ' '), ' ') == args
  {
    var args := ["ln", "-sf", "/usr/share/zoneinfo/" + timezone, "/etc/localtime"];
    assert ' ' !in "/usr/share/zoneinfo/" + timezone;
    SplitJoin(args, ' ');
  }
}
