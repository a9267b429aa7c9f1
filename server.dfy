/**
 * The three collections as the server's data files hold them, and one
 * method per request handler. Each handler loads a collection (reads the
 * field), changes its local copy the way the handler does, and saves it
 * (assigns the field back); the file system's failures are the `io`
 * parameter.
 */
module Server {
  import opened Wrappers
  import opened Json
  import opened Collection
  import opened Users
  import opened Board

  /** Whether the handler's readFile or writeFile fails. */
  datatype IoFault = NoFault | ReadFails | WriteFails

  /** The JSON a handler responds with. */
  datatype Response =
    | Success                       // {success: true}
    | NotFound                      // 404 {error: 'Question not found'}
    | Found(user: Record)           // the stored user
    | UserMissing                   // {userFound: false}
    | Listed(records: seq<Record>)  // an array of questions or answers
    | ServerError                   // 500 {error: ...}

  /** The response for the outcome of a load, change and save that always writes. */
  function SaveResponse(io: IoFault): Response
  {
    if io.NoFault? then Success else ServerError
  }

  class Store {
    /** The contents of data/user.json. */
    var users: seq<Record>
    /** The contents of data/data.json. */
    var questions: seq<Record>
    /** The contents of data/answers.json. */
    var answers: seq<Record>

    /** Server start: a missing user file is created holding an empty array; the other two files must exist. */
    constructor (savedUsers: Option<seq<Record>>, savedQuestions: seq<Record>, savedAnswers: seq<Record>)
      ensures users == (if savedUsers.Some? then savedUsers.value else [])
      ensures questions == savedQuestions && answers == savedAnswers
    {
      users := if savedUsers.Some? then savedUsers.value else [];
      questions := savedQuestions;
      answers := savedAnswers;
    }

    /** POST /api/user: upsert the submitted profile by id. */
    method PostUser(form: UserForm, upload: Option<string>, io: IoFault) returns (resp: Response)
      modifies this
      ensures resp == SaveResponse(io)
      ensures users == if io.NoFault? then Upserted(old(users), NewUser(form, upload)) else old(users)
      ensures questions == old(questions) && answers == old(answers)
    {
      var newUser := NewUser(form, upload);
      if io.ReadFails? {
        return ServerError;
      }
      var loaded := users;
      var existing := FindIndex(loaded, "id", Get(newUser, "id"));
      if existing.Some? {
        loaded := loaded[existing.value := Spread(loaded[existing.value], newUser)];
      } else {
        loaded := loaded + [newUser];
      }
      UpsertedAt(users, newUser);
      if io.WriteFails? {
        return ServerError;
      }
      users := loaded;
      resp := Success;
    }

    /** GET /api/user/:id: the first user with that id, or the not-found sentinel. */
    method GetUser(id: string, io: IoFault) returns (resp: Response)
      ensures io.ReadFails? ==> resp == ServerError
      ensures !io.ReadFails? ==> (resp.UserMissing? <==> forall j :: 0 <= j < |users| ==> !Matches(users[j], "id", Str(id)))
      ensures !io.ReadFails? && resp.Found? ==>
        exists i :: 0 <= i < |users| && resp.user == users[i] && Matches(users[i], "id", Str(id)) &&
                    (forall j :: 0 <= j < i ==> !Matches(users[j], "id", Str(id)))
      ensures resp.ServerError? <==> io.ReadFails?
      ensures resp.ServerError? || resp.Found? || resp.UserMissing?
    {
      if io.ReadFails? {
        return ServerError;
      }
      var loaded := users;
      match Lookup(loaded, id)
      case UserFound(u) => resp := Found(u);
      case UserNotFound => resp := UserMissing;
    }

    /** GET /api/questions: every question, in stored order. */
    method ListQuestions(io: IoFault) returns (resp: Response)
      ensures resp == if io.ReadFails? then ServerError else Listed(questions)
    {
      if io.ReadFails? {
        return ServerError;
      }
      resp := Listed(questions);
    }

    /** POST /api/questions: give the body the next id and append it. */
    method PostQuestion(body: Record, io: IoFault) returns (resp: Response)
      modifies this
      ensures resp == SaveResponse(io)
      ensures questions == if io.NoFault? then Created(old(questions), body) else old(questions)
      ensures users == old(users) && answers == old(answers)
    {
      if io.ReadFails? {
        return ServerError;
      }
      var loaded := questions;
      var newQuestion := body["id" := NextId(loaded)];
      loaded := loaded + [newQuestion];
      if io.WriteFails? {
        return ServerError;
      }
      questions := loaded;
      resp := Success;
    }

    /** PUT /api/questions/:id: merge the patch into the first question with the parsed id. */
    method PutQuestion(p: Option<int>, patch: Record, io: IoFault) returns (resp: Response)
      modifies this
      ensures io.ReadFails? ==> resp == ServerError && questions == old(questions)
      ensures !io.ReadFails? && Updated(old(questions), p, patch).None? ==> resp == NotFound && questions == old(questions)
      ensures !io.ReadFails? && Updated(old(questions), p, patch).Some? ==>
        resp == SaveResponse(io) &&
        questions == if io.NoFault? then Updated(old(questions), p, patch).value else old(questions)
      ensures users == old(users) && answers == old(answers)
    {
      if io.ReadFails? {
        return ServerError;
      }
      var loaded := questions;
      var index := FindIndex(loaded, "id", ParsedId(p));
      MergeFirstAt(loaded, "id", ParsedId(p), patch);
      if index.Some? {
        loaded := loaded[index.value := Spread(loaded[index.value], patch)];
        if io.WriteFails? {
          return ServerError;
        }
        questions := loaded;
        resp := Success;
      } else {
        resp := NotFound;
      }
    }

    /** DELETE /api/questions/:id: keep every question whose id is not the parsed id, and always save. */
    method DeleteQuestion(p: Option<int>, io: IoFault) returns (resp: Response)
      modifies this
      ensures resp == SaveResponse(io)
      ensures questions == if io.NoFault? then Deleted(old(questions), p) else old(questions)
      ensures users == old(users) && answers == old(answers)
    {
      if io.ReadFails? {
        return ServerError;
      }
      var loaded := Filter(questions, "id", ParsedId(p), false);
      if io.WriteFails? {
        return ServerError;
      }
      questions := loaded;
      resp := Success;
    }

    /** POST /api/answers: give the body the next id and append it. */
    method PostAnswer(body: Record, io: IoFault) returns (resp: Response)
      modifies this
      ensures resp == SaveResponse(io)
      ensures answers == if io.NoFault? then Created(old(answers), body) else old(answers)
      ensures users == old(users) && questions == old(questions)
    {
      if io.ReadFails? {
        return ServerError;
      }
      var loaded := answers;
      var newAnswer := body["id" := NextId(loaded)];
      loaded := loaded + [newAnswer];
      if io.WriteFails? {
        return ServerError;
      }
      answers := loaded;
      resp := Success;
    }

    /** GET /api/answers/:questionId: the answers of one question, in stored order; nothing is saved. */
    method ListAnswers(q: Option<int>, io: IoFault) returns (resp: Response)
      ensures io.ReadFails? ==> resp == ServerError
      ensures !io.ReadFails? ==> resp.Listed? && IsSubsequence(resp.records, answers)
      ensures !io.ReadFails? ==>
                forall x :: multiset(resp.records)[x] == if Matches(x, "questionId", ParsedId(q)) then multiset(answers)[x] else 0
    {
      if io.ReadFails? {
        return ServerError;
      }
      var selected := Filter(answers, "questionId", ParsedId(q), true);
      FilterIsSubsequence(answers, "questionId", ParsedId(q), true);
      forall x
        ensures multiset(selected)[x] == if Matches(x, "questionId", ParsedId(q)) then multiset(answers)[x] else 0
      {
        FilterMultiplicity(answers, "questionId", ParsedId(q), true, x);
      }
      resp := Listed(selected);
    }

    /** DELETE /api/answers/:id: keep every answer whose id is not the parsed id, and always save. */
    method DeleteAnswer(p: Option<int>, io: IoFault) returns (resp: Response)
      modifies this
      ensures resp == SaveResponse(io)
      ensures answers == if io.NoFault? then Deleted(old(answers), p) else old(answers)
      ensures users == old(users) && questions == old(questions)
    {
      if io.ReadFails? {
        return ServerError;
      }
      var loaded := Filter(answers, "id", ParsedId(p), false);
      if io.WriteFails? {
        return ServerError;
      }
      answers := loaded;
      resp := Success;
    }
  }
}
