/**
 * The field validators of the service's Settings class: the admin user name,
 * the admin password's strength, the JWT secret's length and the two
 * Supabase keys.  Each validator either returns its input unchanged or
 * raises a ValueError with a fixed message, modelled as Err(message).
 */
module Settings {
  import opened Wrappers
  import opened Text

  const UsernameTooShort := "Admin username must be at least 3 characters"
  const PasswordTooShort := "Admin password must be at least 12 characters"
  const PasswordTooWeak := "Password must contain uppercase, lowercase, digit and special characters"
  const JwtSecretTooShort := "JWT secret must be at least 32 characters"
  const SupabaseKeyInvalid := "Invalid Supabase key. Please set actual Supabase keys."

  /** The two placeholder values shipped in example configuration files. */
  const KeyPlaceholder := "your-supabase-key"
  const ServiceKeyPlaceholder := "your-supabase-service-key"

  predicate IsSpecial(c: char) { !IsAlnum(c) }

  /** Reference definition of a strong password, independent of how it is checked. */
  ghost predicate Strong(password: string) {
    && |password| >= 12
    && (exists i :: 0 <= i < |password| && IsUpper(password[i]))
    && (exists i :: 0 <= i < |password| && IsLower(password[i]))
    && (exists i :: 0 <= i < |password| && IsDigit(password[i]))
    && (exists i :: 0 <= i < |password| && IsSpecial(password[i]))
  }

  function ValidateAdminUsername(username: string): (r: Result<string, string>)
    ensures r.Ok? <==> |username| >= 3
    ensures r.Ok? ==> r.value == username
    ensures r.Err? ==> r.error == UsernameTooShort
  {
    if |username| < 3 then Err(UsernameTooShort) else Ok(username)
  }

  /** The length check runs first, so a short password always gets the length message. */
  function ValidateAdminPassword(password: string): (r: Result<string, string>)
    ensures r.Ok? <==> Strong(password)
    ensures r.Ok? ==> r.value == password
    ensures r.Err? && |password| < 12 ==> r.error == PasswordTooShort
    ensures r.Err? && |password| >= 12 ==> r.error == PasswordTooWeak
  {
    if |password| < 12 then Err(PasswordTooShort)
    else
      var hasUpper := Any(password, IsUpper);
      var hasLower := Any(password, IsLower);
      var hasDigit := Any(password, IsDigit);
      var hasSpecial := Any(password, IsSpecial);
      if !(hasUpper && hasLower && hasDigit && hasSpecial) then Err(PasswordTooWeak)
      else Ok(password)
  }

  function ValidateJwtSecret(secret: string): (r: Result<string, string>)
    ensures r.Ok? <==> |secret| >= 32
    ensures r.Ok? ==> r.value == secret
    ensures r.Err? ==> r.error == JwtSecretTooShort
  {
    if |secret| < 32 then Err(JwtSecretTooShort) else Ok(secret)
  }

  /** Shared by SUPABASE_KEY and SUPABASE_SERVICE_KEY: either placeholder is refused in either field. */
  function ValidateSupabaseKey(key: string): (r: Result<string, string>)
    ensures r.Ok? <==> key !in {"", KeyPlaceholder, ServiceKeyPlaceholder}
    ensures r.Ok? ==> r.value == key
    ensures r.Err? ==> r.error == SupabaseKeyInvalid
  {
    if key == "" || key == KeyPlaceholder || key == ServiceKeyPlaceholder then Err(SupabaseKeyInvalid)
    else Ok(key)
  }

  /** The security-relevant part of the loaded settings. */
  datatype SecuritySettings = SecuritySettings(
    adminUsername: string, adminPassword: string, jwtSecret: string,
    supabaseKey: string, supabaseServiceKey: string)

  /** Collects the message of a failed validation, nothing for a passed one. */
  function Failures(r: Result<string, string>): seq<string> {
    if r.Err? then [r.error] else []
  }

  /**
   * Loading the settings runs every validator in field declaration order and
   * reports all failures together; any failure aborts start-up.
   */
  function LoadSecuritySettings(
    adminUsername: string, adminPassword: string, jwtSecret: string,
    supabaseKey: string, supabaseServiceKey: string): (r: Result<SecuritySettings, seq<string>>)
    ensures r.Ok? <==>
      && |adminUsername| >= 3
      && Strong(adminPassword)
      && |jwtSecret| >= 32
      && supabaseKey !in {"", KeyPlaceholder, ServiceKeyPlaceholder}
      && supabaseServiceKey !in {"", KeyPlaceholder, ServiceKeyPlaceholder}
    ensures r.Ok? ==> r.value == SecuritySettings(adminUsername, adminPassword, jwtSecret, supabaseKey, supabaseServiceKey)
    ensures r.Err? ==> 1 <= |r.error| <= 5
    ensures r.Err? ==> (UsernameTooShort in r.error <==> |adminUsername| < 3)
    ensures r.Err? ==> (PasswordTooShort in r.error <==> |adminPassword| < 12)
    ensures r.Err? ==> (PasswordTooWeak in r.error <==> |adminPassword| >= 12 && !Strong(adminPassword))
    ensures r.Err? ==> (JwtSecretTooShort in r.error <==> |jwtSecret| < 32)
    ensures r.Err? ==> (SupabaseKeyInvalid in r.error <==>
      supabaseKey in {"", KeyPlaceholder, ServiceKeyPlaceholder} || supabaseServiceKey in {"", KeyPlaceholder, ServiceKeyPlaceholder})
  {
    var errors :=
      Failures(ValidateAdminUsername(adminUsername))
      + Failures(ValidateAdminPassword(adminPassword))
      + Failures(ValidateJwtSecret(jwtSecret))
      + Failures(ValidateSupabaseKey(supabaseKey))
      + Failures(ValidateSupabaseKey(supabaseServiceKey));
    if errors == [] then Ok(SecuritySettings(adminUsername, adminPassword, jwtSecret, supabaseKey, supabaseServiceKey))
    else Err(errors)
  }

  /** Appending characters never makes an accepted password weak. */
  lemma StrongPasswordExtends(password: string, suffix: string)
    requires ValidateAdminPassword(password).Ok?
    ensures ValidateAdminPassword(password + suffix).Ok?
  {
    var p := password + suffix;
    var u :| 0 <= u < |password| && IsUpper(password[u]);
    var l :| 0 <= l < |password| && IsLower(password[l]);
    var d :| 0 <= d < |password| && IsDigit(password[d]);
    var s :| 0 <= s < |password| && IsSpecial(password[s]);
    assert IsUpper(p[u]) && IsLower(p[l]) && IsDigit(p[d]) && IsSpecial(p[s]);
  }

  /** Every accepted password holds at least four different characters, one per class. */
  lemma StrongPasswordHasFourDistinctChars(password: string)
    requires ValidateAdminPassword(password).Ok?
    ensures |set i | 0 <= i < |password| :: password[i]| >= 4
  {
    var chars := set i | 0 <= i < |password| :: password[i];
    var u :| 0 <= u < |password| && IsUpper(password[u]);
    var l :| 0 <= l < |password| && IsLower(password[l]);
    var d :| 0 <= d < |password| && IsDigit(password[d]);
    var s :| 0 <= s < |password| && IsSpecial(password[s]);
    var four := {password[u], password[l], password[d], password[s]};
    assert |four| == 4;
    assert chars == four + (chars - four);
    assert |chars| == |four| + |chars - four|;
  }

  /** Twelve characters of three classes are not enough: the special character is missing. */
  lemma NoSpecialCharacterRejected()
    ensures ValidateAdminPassword("Abcdefghijk1") == Err(PasswordTooWeak)
  {
    var p := "Abcdefghijk1";
    assert forall i :: 0 <= i < |p| ==> IsAlnum(p[i]);
  }

  lemma MixedPasswordAccepted()
    ensures ValidateAdminPassword("Abcdefghij1!") == Ok("Abcdefghij1!")
  {
    var p := "Abcdefghij1!";
    assert IsUpper(p[0]) && IsLower(p[1]) && IsDigit(p[10]) && IsSpecial(p[11]);
  }
}
