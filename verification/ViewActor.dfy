/**
 The actor that keeps a view's worker going: it starts a worker when it is activated with a saved
 configuration, when it is configured, and when a reminder finds that the last life ended with an
 error. A life runs from its start to its end; without a reason, the whole process has ended with it.
 */
module ViewActor {
  import opened Wrappers
  import opened Results
  import opened ViewCollection
  import opened ViewStore
  import opened ViewWorker
  import VS = ViewService

  class ViewActor {
    const worker: Worker
    var saved: Option<RetentionPolicy>     // outlives the process
    var config: Option<RetentionPolicy>
    var ended: Option<ShutdownReason>      // how the last life ended, if the actor remembers one

    constructor (worker: Worker, saved: Option<RetentionPolicy>)
      ensures this.worker == worker && this.saved == saved && config.None? && ended.None?
    {
      this.worker, this.saved, config, ended := worker, saved, None, None;
    }

    /** The store and the stream have lived one life from s, and the actor knows how it ended. */
    ghost predicate HasLived(s: VS.State, cfg: VS.Config, life: Episode)
      reads this, worker.store, worker.redis
      requires s.stream.session.None? && life.Life?
    {
      var (reason, s') := Lived(s, cfg, life.initFault, life.script);
      ended == reason && worker.Shows(s', None)
    }

    method InitWorker(life: Episode, ghost s: VS.State, ghost cfg: VS.Config) returns (ok: bool)
      requires life.Life? && worker.Shows(s, None)
      requires config.Some? ==> cfg == VS.Config(config.value, worker.limits)
      modifies this`config, this`ended, worker.store, worker.redis
      ensures ok == old(config).Some?
      ensures ok ==> HasLived(s, cfg, life) && config == if ended.None? then None else old(config)
      ensures !ok ==> worker.Shows(s, None) && config.None? && ended == old(ended)
    {
      if config.None? {
        return false;
      }
      ended := worker.Start(config.value, life.initFault, life.script, s, cfg);
      if ended.None? {
        config := None;
      }
      return true;
    }

    /** A saved configuration is enough to start the worker again after a crash. */
    method OnActivate(life: Episode, ghost s: VS.State, ghost cfg: VS.Config)
      requires life.Life? && worker.Shows(s, None)
      requires saved.Some? ==> cfg == VS.Config(saved.value, worker.limits)
      modifies this`config, this`ended, worker.store, worker.redis
      ensures saved.Some? ==> HasLived(s, cfg, life)
      ensures saved.None? ==> worker.Shows(s, None) && config == old(config) && ended == old(ended)
    {
      if saved.Some? {
        config := saved;
        var _ := InitWorker(life, s, cfg);
      }
    }

    /** Starts a worker again after an error, but not one that left its loop over an undecodable message. */
    method OnReminder(life: Episode, ghost s: VS.State, ghost cfg: VS.Config)
      requires life.Life? && worker.Shows(s, None)
      requires config.Some? ==> cfg == VS.Config(config.value, worker.limits)
      modifies this`config, this`ended, worker.store, worker.redis
      ensures old(ended) == Some(Error) && old(config).Some? ==> HasLived(s, cfg, life)
      ensures !(old(ended) == Some(Error) && old(config).Some?) ==>
                worker.Shows(s, None) && config == old(config) && ended == old(ended)
    {
      if ended == Some(Error) {
        var _ := InitWorker(life, s, cfg);
      }
    }

    /** Remembers the configuration even when saving it fails; then no worker is started. */
    method Configure(policy: RetentionPolicy, persists: bool, registers: bool, life: Episode,
                     ghost s: VS.State, ghost cfg: VS.Config) returns (ok: bool)
      requires life.Life? && worker.Shows(s, None) && cfg == VS.Config(policy, worker.limits)
      modifies this, worker.store, worker.redis
      ensures ok == (persists && registers)
      ensures saved == if persists then Some(policy) else old(saved)
      ensures ok ==> HasLived(s, cfg, life)
      ensures !ok ==> worker.Shows(s, None) && config == Some(policy) && ended == old(ended)
    {
      config := Some(policy);
      if !persists {
        return false;
      }
      saved := Some(policy);
      if !registers {
        return false;
      }
      ok := InitWorker(life, s, cfg);
    }
  }
}
