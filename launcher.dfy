/**
 * The container launcher: the argument vector it hands to the Moshi
 * server, built from the temporary certificate directory and the
 * `CPU_OFFLOAD` environment variable.
 */
module Launcher {
  /** The command every launch starts with, before any optional flag. */
  function BaseCommand(sslDir: string): seq<string>
  {
    ["python3", "-m", "moshi.server", "--ssl", sslDir, "--host", "0.0.0.0"]
  }

  const CPU_OFFLOAD_FLAG: string := "--cpu-offload"

  function ToLowerAscii(c: char): char
  {
    if 'A' <= c <= 'Z' then (c as int + 32) as char else c
  }

  /** `str.lower`, on ASCII letters. */
  function Lower(s: string): (r: string)
    ensures |r| == |s|
    ensures forall i :: 0 <= i < |s| ==> r[i] == ToLowerAscii(s[i])
  {
    seq(|s|, i requires 0 <= i < |s| => ToLowerAscii(s[i]))
  }

  /** `os.environ.get('CPU_OFFLOAD', 'false')`. */
  function CpuOffloadSetting(env: map<string, string>): (v: string)
    ensures "CPU_OFFLOAD" in env ==> v == env["CPU_OFFLOAD"]
    ensures "CPU_OFFLOAD" !in env ==> v == "false"
  {
    if "CPU_OFFLOAD" in env then env["CPU_OFFLOAD"] else "false"
  }

  predicate CpuOffload(env: map<string, string>)
  {
    Lower(CpuOffloadSetting(env)) == "true"
  }

  /** The launcher's `cmd`: the base vector, then `--cpu-offload` when asked for. */
  method BuildCommand(env: map<string, string>, sslDir: string) returns (cmd: seq<string>)
    ensures |cmd| == (if CpuOffload(env) then 8 else 7)
    ensures cmd[..7] == BaseCommand(sslDir)
    ensures cmd[4] == sslDir
    ensures cmd[7..] == if CpuOffload(env) then [CPU_OFFLOAD_FLAG] else []
  {
    cmd := ["python3", "-m", "moshi.server", "--ssl", sslDir, "--host", "0.0.0.0"];
    if Lower(CpuOffloadSetting(env)) == "true" {
      cmd := cmd + [CPU_OFFLOAD_FLAG];
    }
  }

  /** A value switches offloading on exactly when it spells "true" in any mix of cases. */
  lemma LowerIsTrue(s: string)
    ensures Lower(s) == "true" <==>
              |s| == 4 && s[0] in "tT" && s[1] in "rR" && s[2] in "uU" && s[3] in "eE"
  {
    if Lower(s) == "true" {
      assert |s| == 4;
      assert ToLowerAscii(s[0]) == 't' && ToLowerAscii(s[1]) == 'r';
      assert ToLowerAscii(s[2]) == 'u' && ToLowerAscii(s[3]) == 'e';
    }
    if |s| == 4 && s[0] in "tT" && s[1] in "rR" && s[2] in "uU" && s[3] in "eE" {
      assert Lower(s) == [Lower(s)[0], Lower(s)[1], Lower(s)[2], Lower(s)[3]];
    }
  }

  /** An unset variable means "false": no flag. */
  lemma UnsetMeansNoOffload(env: map<string, string>)
    requires "CPU_OFFLOAD" !in env
    ensures !CpuOffload(env)
  {
    assert Lower("false")[0] == 'f';
  }

  /** Values that merely look affirmative do not turn offloading on. */
  lemma OtherValuesMeanNoOffload(env: map<string, string>)
    requires "CPU_OFFLOAD" in env
    requires env["CPU_OFFLOAD"] in ["1", "yes", "", "on", "true "]
    ensures !CpuOffload(env)
  {
    LowerIsTrue(env["CPU_OFFLOAD"]);
  }

  /** Any capitalisation of "true" turns it on. */
  lemma AnyCaseOfTrueMeansOffload(env: map<string, string>)
    requires "CPU_OFFLOAD" in env
    requires env["CPU_OFFLOAD"] in ["true", "True", "TRUE", "tRuE"]
    ensures CpuOffload(env)
  {
    LowerIsTrue(env["CPU_OFFLOAD"]);
  }
}
