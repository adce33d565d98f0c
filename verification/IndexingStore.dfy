/** Phase D of the processor as it runs: task row and embedding row assigned in place in one session. */
module IndexingStore {
  import opened FencedQueue
  import opened TaskTable
  import opened Documents
  import opened Catalog
  import IndexingProtocol

  type Listing = IndexingProtocol.Listing
  type Client = IndexingProtocol.Client
  type Embedding = IndexingProtocol.Embedding
  type State = IndexingProtocol.State
  type ProcessResult = IndexingProtocol.ProcessResult

  class EmbeddingRow {
    var provider: string
    var model: string
    var dimensions: nat
    var text: string
    var digest: Digest
    var vector: seq<real>
    var embeddedAt: int

    function Value(): Embedding
      reads this
    {
      IndexingProtocol.Embedding.Embedding(provider, model, dimensions, text, digest, vector, embeddedAt)
    }

    constructor (client: Client, text: string, vector: seq<real>, now: int)
      ensures Value() == IndexingProtocol.NewEmbedding(client, text, vector, now)
    {
      provider, model, dimensions := client.provider, client.model, client.dimensions;
      this.text, digest, this.vector, embeddedAt := text, Sha256(text), vector, now;
    }

    method Overwrite(client: Client, text: string, vector: seq<real>, now: int)
      modifies this
      ensures Value() == IndexingProtocol.NewEmbedding(client, text, vector, now)
    {
      provider := client.provider;
      model := client.model;
      dimensions := client.dimensions;
      this.text := text;
      digest := Sha256(text);
      this.vector := vector;
      embeddedAt := now;
    }
  }

  class IndexStore {
    const queue: TaskTable<NewTask>
    var embeddings: map<nat, EmbeddingRow>
    var listings: map<nat, Listing>

    ghost predicate Valid()
      reads this, queue
    {
      && queue.Valid()
      && forall p, q | p in embeddings && q in embeddings && p != q :: embeddings[p] != embeddings[q]
    }

    ghost function EmbeddingView(): map<nat, Embedding>
      reads this, embeddings.Values
    {
      map p | p in embeddings :: embeddings[p].Value()
    }

    ghost function View(client: Client, render: Semantics -> string): State
      reads this, queue, queue.rows.Values, embeddings.Values
    {
      IndexingProtocol.State.State(client, render, listings, queue.View(), EmbeddingView(), map[], map[], {})
    }

    constructor (listings: map<nat, Listing>)
      ensures Valid() && this.listings == listings && EmbeddingView() == map[] && queue.View() == map[]
    {
      this.listings := listings;
      embeddings := map[];
      queue := new TaskTable();
    }

    /** One embedding row per product: overwrite it if it is there, insert it otherwise. */
    method UpsertEmbedding(client: Client, p: nat, text: string, vector: seq<real>, now: int)
      requires Valid()
      modifies this`embeddings, embeddings.Values
      ensures Valid()
      ensures EmbeddingView() == old(EmbeddingView())[p := IndexingProtocol.NewEmbedding(client, text, vector, now)]
      ensures queue.View() == old(queue.View())
    {
      if p in embeddings {
        embeddings[p].Overwrite(client, text, vector, now);
      } else {
        var row := new EmbeddingRow(client, text, vector, now);
        embeddings := embeddings[p := row];
      }
    }

    /** The transition of an already locked, already checked task row, in the caller's transaction. */
    method ApplyFailure(id: nat, message: string, maxAttempts: int, retryDelay: int, now: int) returns (r: ProcessResult)
      requires Valid() && id in queue.rows
      modifies queue.rows.Values
      ensures Valid() && EmbeddingView() == old(EmbeddingView())
      ensures queue.View() == old(queue.View())[id := ActRow(old(queue.View())[id], Fail(message, maxAttempts, retryDelay), now)]
      ensures r == IndexingProtocol.FailureResult(queue.View()[id].status)
    {
      var outcome := queue.rows[id].Fail(message, maxAttempts, retryDelay, now);
      r := IndexingProtocol.FailureResult(outcome);
    }

    method ApplyCompletion(id: nat, now: int)
      requires Valid() && id in queue.rows
      modifies queue.rows.Values
      ensures Valid() && EmbeddingView() == old(EmbeddingView())
      ensures queue.View() == old(queue.View())[id := ActRow(old(queue.View())[id], Action.Complete, now)]
    {
      queue.rows[id].Complete(now);
    }

    /** The successful end of phase D: the embedding and the completed task in one transaction. */
    method StoreAndComplete(client: Client, p: nat, text: string, vector: seq<real>, id: nat, now: int)
      requires Valid() && id in queue.rows
      modifies this`embeddings, queue.rows.Values, embeddings.Values
      ensures Valid() && listings == old(listings)
      ensures EmbeddingView() == old(EmbeddingView())[p := IndexingProtocol.NewEmbedding(client, text, vector, now)]
      ensures queue.View() == old(queue.View())[id := ActRow(old(queue.View())[id], Action.Complete, now)]
    {
      UpsertEmbedding(client, p, text, vector, now);
      ApplyCompletion(id, now);
    }

    /** _write_embedding_atomically */
    method WriteEmbeddingAtomically(
      client: Client, render: Semantics -> string, a: IndexingProtocol.Activity, text: string, vector: seq<real>)
      returns (r: ProcessResult)
      requires Valid()
      modifies this`embeddings, queue.rows.Values, embeddings.Values
      ensures Valid()
      ensures (View(client, render), r) == IndexingProtocol.WriteEmbedding(old(View(client, render)), a, text, vector)
    {
      if a.task !in queue.rows {
        return IndexingProtocol.Raised(NotFound);
      }
      var task := queue.rows[a.task];
      if task.status != Processing {
        return IndexingProtocol.Raised(InvalidTransition);
      }
      if task.attempts != a.token {
        return IndexingProtocol.StaleClaimed;
      }
      var p := task.payload.productId;
      if p !in listings {
        r := ApplyFailure(a.task, IndexingProtocol.PRODUCT_MISSING, 1, a.retryDelay, a.now);
        return;
      }
      if !listings[p].hasVariant {
        r := ApplyFailure(a.task, IndexingProtocol.VARIANT_MISSING, a.maxAttempts, a.retryDelay, a.now);
        return;
      }
      if Sha256(render(listings[p].semantics)) != Sha256(text) {
        r := ApplyFailure(a.task, IndexingProtocol.DOCUMENT_CHANGED, a.maxAttempts, a.retryDelay, a.now);
        return;
      }
      StoreAndComplete(client, p, text, vector, a.task, a.now);
      r := IndexingProtocol.Embedded;
    }
  }
}
