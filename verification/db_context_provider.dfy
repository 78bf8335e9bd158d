/**
 * The memoised database context of Data/DynamicDbContextProvider.cs: the
 * context is rebuilt only when the connection string changes, and a failure to
 * obtain the string yields an untracked context on the configured default.
 */
module DbContexts {
  import opened Wrappers

  /** An ApplicationDbContext: the connection string it was built on and whether it was disposed. */
  class DbContext {
    const connectionString: Option<string>
    var disposed: bool

    constructor (connectionString: Option<string>)
      ensures this.connectionString == connectionString && !disposed
    {
      this.connectionString := connectionString;
      disposed := false;
    }

    method Dispose()
      modifies this
      ensures disposed
    {
      disposed := true;
    }
  }

  class DynamicDbContextProvider {
    /** The configured DefaultConnection (None when it is not configured). */
    const defaultConnection: Option<string>
    var currentContext: DbContext?
    var currentConnectionString: Option<string>

    /** A remembered context was built on the remembered connection string. */
    ghost predicate Valid()
      reads this, currentContext
    {
      currentContext != null ==>
        currentConnectionString.Some? && currentContext.connectionString == currentConnectionString
    }

    constructor (defaultConnection: Option<string>)
      ensures this.defaultConnection == defaultConnection
      ensures currentContext == null && currentConnectionString == None
      ensures Valid()
    {
      this.defaultConnection := defaultConnection;
      currentContext := null;
      currentConnectionString := None;
    }

    /**
     * GetContext, given the outcome of the connection-string call. A new
     * context is built exactly when there is none or the string changed, and
     * the previous one is disposed first; otherwise the remembered context is
     * returned as it is. On failure a fresh context on the default connection
     * is returned and nothing is remembered.
     */
    method GetContext(fetched: Result<string, string>) returns (ctx: DbContext)
      requires Valid()
      modifies this, currentContext
      ensures Valid()
      ensures fetched.Ok? ==>
        var rebuild := old(currentContext) == null || old(currentConnectionString) != Some(fetched.value);
        && ctx == currentContext
        && currentConnectionString == Some(fetched.value)
        && ctx.connectionString == Some(fetched.value)
        && (fresh(ctx) <==> rebuild)
        && (rebuild ==> !ctx.disposed && (old(currentContext) != null ==> old(currentContext).disposed))
        && (!rebuild ==> ctx == old(currentContext) && unchanged(ctx))
      ensures fetched.Err? ==>
        && fresh(ctx) && ctx.connectionString == defaultConnection && !ctx.disposed
        && currentContext == old(currentContext) && currentConnectionString == old(currentConnectionString)
        && (currentContext != null ==> unchanged(currentContext))
    {
      if fetched.Err? {
        ctx := new DbContext(defaultConnection);
        return;
      }
      var connectionString := fetched.value;
      if currentContext == null || currentConnectionString != Some(connectionString) {
        if currentContext != null {
          currentContext.Dispose();
        }
        currentContext := new DbContext(Some(connectionString));
        currentConnectionString := Some(connectionString);
      }
      ctx := currentContext;
    }

    /** Dispose: disposes the remembered context, and nothing else. */
    method Dispose()
      modifies currentContext
      ensures currentContext != null ==> currentContext.disposed
    {
      if currentContext != null {
        currentContext.Dispose();
      }
    }
  }

  /** Two consecutive calls that obtain the same connection string share one context. */
  method ConsecutiveCallsShareContext(provider: DynamicDbContextProvider, connectionString: string)
    returns (first: DbContext, second: DbContext)
    requires provider.Valid()
    modifies provider, provider.currentContext
    ensures first == second && first == provider.currentContext
    ensures first.connectionString == Some(connectionString)
  {
    first := provider.GetContext(Ok(connectionString));
    second := provider.GetContext(Ok(connectionString));
  }
}
