/** The generic module attached to a host object: it remembers a reference to
    its host and becomes ready once it has been loaded. */
module ClassModules {
  import opened Optional

  /** `base` is the host reference (`None` when there is no host); `loaded` is
      the flag set by `load`. */
  datatype ClassModule<B> = ClassModule(base: Option<B>, loaded: bool)

  /** A module is ready when it has a host and has been loaded. */
  predicate Ready<B>(m: ClassModule<B>) {
    m.base.Some? && m.loaded
  }

  /** The constructor: keeps the host reference, not yet loaded. */
  function Construct<B>(base: Option<B>): (m: ClassModule<B>)
    ensures !Ready(m)
    ensures m.base == base
  {
    ClassModule(base, false)
  }

  /** `load`: sets the loaded flag and reports whether the module is now
      ready, which is whether it has a host. Returns the new module state
      and the reported flag. */
  function Load<B>(m: ClassModule<B>): (r: (ClassModule<B>, bool))
    ensures r.1 <==> m.base.Some?
    ensures r.1 == Ready(r.0)
    ensures r.0.base == m.base
  {
    var m' := m.(loaded := true);
    (m', Ready(m'))
  }

  /** `moduleBase`: the host object; dereferencing requires a host. */
  function ModuleBase<B>(m: ClassModule<B>): B
    requires m.base.Some?
  {
    m.base.value
  }

  /** Loading twice is the same as loading once. */
  lemma LoadIdempotent<B>(m: ClassModule<B>)
    ensures Load(Load(m).0) == Load(m)
  {
  }

  /** A freshly constructed module becomes ready by loading exactly when it
      was given a host, and its host is the one given at construction. */
  lemma ConstructLoadReady<B>(base: Option<B>)
    ensures !Ready(Construct(base))
    ensures Load(Construct(base)).1 <==> base.Some?
    ensures base.Some? ==> ModuleBase(Load(Construct(base)).0) == base.value
  {
  }
}
