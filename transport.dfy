/** The RPC transport: the backend base URL, its normalisation, and the
    memoised transport instance. */
module Transport {
  import opened Base
  import opened Strings

  /** What the build-time configuration gives for the backend URL: nothing
      (including when the configuration module cannot be loaded), a value
      that is not a string, or a string. */
  datatype ConfigValue = Absent | NotAString | Text(s: string)

  const DefaultBaseUrl: string := "http://localhost:50051"

  /** The configured URL when it is a non-empty string, else the environment
      variable when it is non-empty, else the local default. */
  function GetBaseUrl(config: ConfigValue, env: Option<string>): (r: string)
    ensures config.Text? && config.s != [] ==> r == config.s
    ensures !(config.Text? && config.s != []) && env.Some? && env.value != [] ==> r == env.value
    ensures !(config.Text? && config.s != []) && (env.None? || env.value == []) ==> r == DefaultBaseUrl
    ensures r != []
  {
    if config.Text? && config.s != [] then config.s
    else OrElse(env, DefaultBaseUrl)
  }

  /** A base URL without a scheme gets `http://` in front. */
  function NormalizeUrl(baseUrl: string): (r: string)
    ensures StartsWith(r, "http")
    ensures StartsWith(baseUrl, "http") ==> r == baseUrl
    ensures !StartsWith(baseUrl, "http") ==> r == "http://" + baseUrl
  {
    if StartsWith(baseUrl, "http") then baseUrl else "http://" + baseUrl
  }

  /** Normalising a normalised URL changes nothing. */
  lemma NormalizeIdempotent(baseUrl: string)
    ensures NormalizeUrl(NormalizeUrl(baseUrl)) == NormalizeUrl(baseUrl)
  {
  }

  /** With nothing configured the transport talks to the local default. */
  lemma DefaultUrl()
    ensures NormalizeUrl(GetBaseUrl(Absent, None)) == DefaultBaseUrl
    ensures NormalizeUrl(GetBaseUrl(NotAString, Some([]))) == DefaultBaseUrl
  {
    assert DefaultBaseUrl[..4] == "http";
  }

  /** A configured host without a scheme, as an emulator setup gives it,
      is reached over `http://`. */
  lemma BareHostGetsScheme()
    ensures NormalizeUrl(GetBaseUrl(Text("10.0.2.2:50051"), None)) == "http://10.0.2.2:50051"
  {
    var host := "10.0.2.2:50051";
    assert !StartsWith(host, "http") by {
      assert host[..4][0] == '1';
    }
    assert "http://" + host == "http://10.0.2.2:50051";
  }

  /** A Connect transport bound to one base URL. */
  class ConnectTransport {
    const baseUrl: string

    constructor (baseUrl: string)
      ensures this.baseUrl == baseUrl
    {
      this.baseUrl := baseUrl;
    }
  }

  /** The module state: the URL fixed at load time and the cached transport. */
  class TransportModule {
    const url: string
    var cachedTransport: ConnectTransport?

    ghost predicate Valid()
      reads this
    {
      cachedTransport != null ==> cachedTransport.baseUrl == url
    }

    /** Loading the module: the URL is computed once from the configuration
        and the environment; no transport exists yet. */
    constructor (config: ConfigValue, env: Option<string>)
      ensures Valid()
      ensures url == NormalizeUrl(GetBaseUrl(config, env)) && cachedTransport == null
    {
      url := NormalizeUrl(GetBaseUrl(config, env));
      cachedTransport := null;
    }

    /** `createTransport()`: a new transport for the module's URL. */
    method CreateTransport() returns (t: ConnectTransport)
      ensures fresh(t) && t.baseUrl == url
    {
      t := new ConnectTransport(url);
    }

    /** `getTransport()`: the cached transport, created on the first call. */
    method GetTransport() returns (t: ConnectTransport)
      requires Valid()
      modifies this
      ensures Valid()
      ensures cachedTransport == t && t.baseUrl == url
      ensures old(cachedTransport) != null ==> t == old(cachedTransport)
      ensures old(cachedTransport) == null ==> fresh(t)
    {
      if cachedTransport == null {
        cachedTransport := CreateTransport();
      }
      t := cachedTransport;
    }

    /** `resetTransport()`: the next `getTransport()` creates a new one. */
    method ResetTransport()
      modifies this
      ensures Valid() && cachedTransport == null
    {
      cachedTransport := null;
    }
  }

  /** Two calls in a row return one instance; after a reset the next call
      returns a new one. */
  method GetResetGet(m: TransportModule) returns (first: ConnectTransport, second: ConnectTransport, third: ConnectTransport)
    requires m.Valid()
    modifies m
    ensures first == second && fresh(third) && third != first
    ensures third.baseUrl == m.url && m.cachedTransport == third
  {
    first := m.GetTransport();
    second := m.GetTransport();
    m.ResetTransport();
    third := m.GetTransport();
  }
}
