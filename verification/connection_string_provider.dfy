/**
 * The connection-string fallback chain of Data/VaultConnectionStringProvider.cs:
 * the string from Vault, else the configured DefaultConnection, else an error
 * wrapping Vault's.
 */
module ConnectionStringProvider {
  import opened Wrappers
  import opened Text

  const NoConnectionString: string := "No connection string available from Vault or configuration"

  /** An InvalidOperationException: its message and the message of the exception it wraps. */
  datatype ProviderError = ProviderError(message: string, inner: string)

  /**
   * GetConnectionStringAsync, given the outcome of the Vault call and the
   * configured DefaultConnection (None when it is not configured).
   */
  function GetConnectionString(vault: Result<string, string>, defaultConnection: Option<string>)
    : (r: Result<string, ProviderError>)
    ensures r.Ok? <==> vault.Ok? || !IsNullOrEmpty(defaultConnection)
    ensures vault.Ok? ==> r.value == vault.value
    ensures vault.Err? && r.Ok? ==> r.value == defaultConnection.value && r.value != ""
    ensures r.Err? ==> r.error == ProviderError(NoConnectionString, vault.error)
  {
    if vault.Ok? then Ok(vault.value)
    else if IsNullOrEmpty(defaultConnection) then Err(ProviderError(NoConnectionString, vault.error))
    else Ok(defaultConnection.value)
  }

  /** Configuration is not consulted when Vault answers. */
  lemma VaultAnswerIgnoresConfiguration(cs: string, d1: Option<string>, d2: Option<string>)
    ensures GetConnectionString(Ok(cs), d1) == GetConnectionString(Ok(cs), d2)
  {
  }

  /** The provider never hands out an empty string when Vault's answers are non-empty. */
  lemma ProvidedStringNonEmpty(vault: Result<string, string>, defaultConnection: Option<string>)
    requires vault.Ok? ==> vault.value != ""
    ensures GetConnectionString(vault, defaultConnection).Ok? ==> GetConnectionString(vault, defaultConnection).value != ""
  {
  }
}
