/** Secrets.py: the process configuration read from the environment. The
    environment (after `.env` is loaded) is a map from names to values. */
module SecretsEnv {
  import opened Wrappers

  datatype Secrets = Secrets(
    gmailApiClientSecretFilename: string,
    mysqlPassword: string,
    callChatgptApi: bool)

  /** `ValueError("Missing environment variables in .env")`. */
  datatype ConfigError = MissingEnvironmentVariables

  type Env = map<string, string>

  const ClientSecretVar: string := "GMAIL_API_CLIENT_SECRET_FILENAME"
  const PasswordVar: string := "MYSQL_PASSWORD"
  const CallApiVar: string := "CALL_CHATGPT_API"

  /** `os.getenv(key)`. */
  function GetEnv(env: Env, key: string): Option<string> {
    if key in env then Some(env[key]) else None
  }

  /** `os.getenv(key, default)`. */
  function GetEnvOr(env: Env, key: string, default: string): string {
    if key in env then env[key] else default
  }

  /** Python's `not x` for the result of `os.getenv`: None or empty. */
  predicate Falsy(v: Option<string>) {
    v.None? || v.value == []
  }

  /** Unset or set to the empty string. */
  predicate Missing(env: Env, key: string) {
    key !in env || env[key] == []
  }

  function LowerChar(c: char): char {
    if 'A' <= c <= 'Z' then (c as int - 'A' as int + 'a' as int) as char else c
  }

  /** `str.lower()` on ASCII letters; other characters are kept. */
  function Lower(s: string): (r: string)
    ensures |r| == |s|
    ensures forall i :: 0 <= i < |s| ==> r[i] == LowerChar(s[i])
  {
    seq(|s|, i requires 0 <= i < |s| => LowerChar(s[i]))
  }

  /** `v` spells "true" in some mix of letter cases. */
  predicate IsTrueInAnyCase(v: string) {
    && |v| == 4
    && (v[0] == 't' || v[0] == 'T')
    && (v[1] == 'r' || v[1] == 'R')
    && (v[2] == 'u' || v[2] == 'U')
    && (v[3] == 'e' || v[3] == 'E')
  }

  /** `v.lower() == 'true'` holds exactly for the case variants of "true". */
  lemma LowerIsTrueIffTrueInAnyCase(v: string)
    ensures Lower(v) == "true" <==> IsTrueInAnyCase(v)
  {
  }

  /** `Secrets.from_env`. */
  function FromEnv(env: Env): (r: Result<Secrets, ConfigError>)
    ensures r.Failure? <==> Missing(env, ClientSecretVar) || Missing(env, PasswordVar)
    ensures r.Success? ==> r.value.gmailApiClientSecretFilename == env[ClientSecretVar]
                           && r.value.mysqlPassword == env[PasswordVar]
    ensures r.Success? ==> (r.value.callChatgptApi <==> CallApiVar in env && IsTrueInAnyCase(env[CallApiVar]))
  {
    var filename := GetEnv(env, ClientSecretVar);
    var password := GetEnv(env, PasswordVar);
    var callChatgptApi := Lower(GetEnvOr(env, CallApiVar, "false")) == "true";
    if Falsy(filename) || Falsy(password) then
      Failure(MissingEnvironmentVariables)
    else
      LowerIsTrueIffTrueInAnyCase(GetEnvOr(env, CallApiVar, "false"));
      Success(Secrets(filename.value, password.value, callChatgptApi))
  }

  /** Whatever `CALL_CHATGPT_API` holds, or whether it is set at all, it
      never decides between success and failure, nor changes the other two
      fields. */
  lemma CallApiVarNeverFails(env: Env, v: string)
    ensures FromEnv(env[CallApiVar := v]).Success? == FromEnv(env).Success?
    ensures FromEnv(env - {CallApiVar}).Success? == FromEnv(env).Success?
    ensures FromEnv(env).Success? ==>
              && FromEnv(env[CallApiVar := v]).value.mysqlPassword == FromEnv(env).value.mysqlPassword
              && FromEnv(env[CallApiVar := v]).value.gmailApiClientSecretFilename
                 == FromEnv(env).value.gmailApiClientSecretFilename
    ensures FromEnv(env).Success? ==>
              && FromEnv(env - {CallApiVar}).value.mysqlPassword == FromEnv(env).value.mysqlPassword
              && FromEnv(env - {CallApiVar}).value.gmailApiClientSecretFilename
                 == FromEnv(env).value.gmailApiClientSecretFilename
  {
  }
}
